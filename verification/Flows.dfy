/** Per-CPU flow accounting: every interleaving of the CPUs running the hook, of user space
    draining entries and of the kernel evicting them. A hook runs in up to three steps, the lookup, the
    update of the entry in place and the write-back, so that the others can come in between. */
module Flows {
  import opened Bytes

  /** What the accounting reads of a flow id is its identity. */
  datatype FlowId = FlowId(
    src: seq<byte>, dst: seq<byte>, ethProto: u16, srcPort: u16, dstPort: u16, proto: byte, ifIndex: u32)

  datatype Metrics = Metrics(packets: u32, bytes: u64, start: nat, end: nat)

  const ZERO := Metrics(0, 0, 0, 0)

  const M32 := 0x1_0000_0000
  const M64 := 0x1_0000_0000_0000_0000

  /** In-place update of the CPU's own slot. */
  function Bump(m: Metrics, len: u32, now: nat): Metrics {
    Metrics((m.packets + 1) % M32, (m.bytes + len) % M64, if m.start == 0 then now else m.start, now)
  }

  function First(len: u32, now: nat): Metrics {
    Metrics(1, len, now, now)
  }

  /** A hook between two steps: the key was missing; the entry is held, not yet updated, or was removed
      before the update with this value in the CPU's slot; the entry has been updated in place, or was
      removed after that with this value. */
  datatype Op =
    | Fresh(id: FlowId, len: u32, now: nat)
    | Held(id: FlowId, len: u32, now: nat)
    | Stale(id: FlowId, len: u32, now: nat, value: Metrics)
    | Bumped(id: FlowId, len: u32, now: nat)
    | Orphan(id: FlowId, len: u32, now: nat, value: Metrics)

  datatype Sys = Sys(
    cpus: nat, entries: map<FlowId, seq<Metrics>>, pending: map<nat, Op>, ring: seq<(FlowId, Metrics)>, clock: nat)

  datatype Event =
    | Arrive(cpu: nat, id: FlowId, len: u32, now: nat)
    | Touch(cpu: nat)
    | Commit(cpu: nat, updated: bool, reserved: bool)
    | Remove(id: FlowId)

  /** Update of one CPU's slot; a new key gets zeroed slots for the other CPUs. */
  function Put(s: Sys, id: FlowId, cpu: nat, m: Metrics): map<FlowId, seq<Metrics>>
    requires cpu < s.cpus && (id in s.entries ==> |s.entries[id]| == s.cpus)
  {
    var slots := if id in s.entries then s.entries[id] else seq(s.cpus, _ => ZERO);
    s.entries[id := slots[cpu := m]]
  }

  /** The entry the hook points into is in the map. */
  predicate Holds(op: Op) {
    op.Held? || op.Bumped?
  }

  ghost predicate Shaped(s: Sys) {
    && (forall id :: id in s.entries ==> |s.entries[id]| == s.cpus)
    && (forall c :: c in s.pending ==> c < s.cpus)
    && (forall c :: c in s.pending && Holds(s.pending[c]) ==> s.pending[c].id in s.entries)
  }

  ghost predicate Legal(s: Sys, e: Event) {
    match e
    case Arrive(cpu, _, _, now) => cpu < s.cpus && cpu !in s.pending && now >= s.clock
    case Touch(cpu) => cpu in s.pending && s.pending[cpu].Held?
    case Commit(cpu, _, _) => cpu in s.pending && !s.pending[cpu].Held?
    case Remove(id) => true
  }

  function Arrived(s: Sys, e: Event): Sys
    requires e.Arrive?
  {
    var op := if e.id in s.entries then Held(e.id, e.len, e.now) else Fresh(e.id, e.len, e.now);
    s.(pending := s.pending[e.cpu := op], clock := e.now)
  }

  /** The update in place, in the map's own memory. */
  function Touched(s: Sys, cpu: nat): Sys
    requires cpu in s.pending && s.pending[cpu].Held?
    requires var id := s.pending[cpu].id; id in s.entries && cpu < |s.entries[id]|
  {
    var op := s.pending[cpu];
    var slots := s.entries[op.id];
    s.(entries := s.entries[op.id := slots[cpu := Bump(slots[cpu], op.len, op.now)]],
       pending := s.pending[cpu := Bumped(op.id, op.len, op.now)])
  }

  /** Writing an entry that is still in the map over itself changes nothing. An entry removed before
      its update is updated outside the map first. */
  function CommittedEntries(s: Sys, cpu: nat, updated: bool): map<FlowId, seq<Metrics>>
    requires cpu in s.pending && cpu < s.cpus && !s.pending[cpu].Held?
    requires s.pending[cpu].id in s.entries ==> |s.entries[s.pending[cpu].id]| == s.cpus
  {
    var op := s.pending[cpu];
    match op
    case Fresh(id, len, now) => if updated then Put(s, id, cpu, First(len, now)) else s.entries
    case Bumped(_, _, _) => s.entries
    case Stale(id, len, now, value) => if updated then Put(s, id, cpu, Bump(value, len, now)) else s.entries
    case Orphan(id, _, _, value) => if updated then Put(s, id, cpu, value) else s.entries
  }

  function CommittedRing(s: Sys, cpu: nat, updated: bool, reserved: bool): seq<(FlowId, Metrics)>
    requires cpu in s.pending
  {
    var op := s.pending[cpu];
    if op.Fresh? && !updated && reserved then s.ring + [(op.id, First(op.len, op.now))] else s.ring
  }

  function Detach(s: Sys, id: FlowId): map<nat, Op> {
    map c | c in s.pending ::
      var op := s.pending[c];
      if !Holds(op) || op.id != id || id !in s.entries || c >= |s.entries[id]| then op
      else if op.Held? then Stale(id, op.len, op.now, s.entries[id][c])
      else Orphan(id, op.len, op.now, s.entries[id][c])
  }

  ghost function Step(s: Sys, e: Event): Sys
    requires Shaped(s) && Legal(s, e)
  {
    match e
    case Arrive(_, _, _, _) => Arrived(s, e)
    case Touch(cpu) => Touched(s, cpu)
    case Commit(cpu, updated, reserved) =>
      s.(entries := CommittedEntries(s, cpu, updated),
         ring := CommittedRing(s, cpu, updated, reserved),
         pending := s.pending - {cpu})
    case Remove(id) => s.(entries := s.entries - {id}, pending := Detach(s, id))
  }

  /** The kernel maps and the hooks, as they change. */
  class Monitor {
    var s: Sys

    /** What every run keeps. */
    ghost predicate Valid()
      reads this
    {
      Inv(s)
    }

    constructor (cpus: nat)
      ensures Valid() && s == Sys(cpus, map[], map[], [], 0)
    {
      s := Sys(cpus, map[], map[], [], 0);
    }

    /** The hook up to its map lookup. */
    method FlowArrives(cpu: nat, id: FlowId, len: u32, now: nat)
      requires Valid() && Legal(s, Arrive(cpu, id, len, now))
      modifies this
      ensures Valid() && s == Step(old(s), Arrive(cpu, id, len, now))
    {
      hide Inv;
      InvIsShaped(s);
      StepKeepsInv(s, Arrive(cpu, id, len, now));
      if id in s.entries {
        s := s.(pending := s.pending[cpu := Held(id, len, now)], clock := now);
      } else {
        s := s.(pending := s.pending[cpu := Fresh(id, len, now)], clock := now);
      }
    }

    /** The entry that was found is updated through the pointer. */
    method FlowTouches(cpu: nat)
      requires Valid() && Legal(s, Touch(cpu))
      modifies this
      ensures Valid() && s == Step(old(s), Touch(cpu))
    {
      hide Bump, Inv;
      InvIsShaped(s);
      StepKeepsInv(s, Touch(cpu));
      var op := s.pending[cpu];
      var slots := s.entries[op.id];
      s := s.(entries := s.entries[op.id := slots[cpu := Bump(slots[cpu], op.len, op.now)]],
              pending := s.pending[cpu := Bumped(op.id, op.len, op.now)]);
    }

    /** The rest of the hook: write-back, insert, ring-buffer fallback, drop. */
    method FlowCommits(cpu: nat, updated: bool, reserved: bool)
      requires Valid() && Legal(s, Commit(cpu, updated, reserved))
      modifies this
      ensures Valid() && s == Step(old(s), Commit(cpu, updated, reserved))
    {
      hide Bump, Inv;
      InvIsShaped(s);
      StepKeepsInv(s, Commit(cpu, updated, reserved));
      var op := s.pending[cpu];
      var entries, ring := s.entries, s.ring;
      if op.Bumped? {
        var slots := entries[op.id];
        assert slots[cpu := slots[cpu]] == slots;
        entries := entries[op.id := slots[cpu := slots[cpu]]];
        assert entries == s.entries;
      } else if op.Stale? || op.Orphan? {
        var value := if op.Stale? then Bump(op.value, op.len, op.now) else op.value;
        if updated {
          entries := Put(s, op.id, cpu, value);
        }
      } else {
        if updated {
          entries := Put(s, op.id, cpu, First(op.len, op.now));
        } else if reserved {
          ring := ring + [(op.id, First(op.len, op.now))];
        }
      }
      s := s.(entries := entries, ring := ring, pending := s.pending - {cpu});
    }
  }

  // ---------------------------------------------------------------- invariant

  /** Slots that a pending update will overwrite hold nothing; times are in order. */
  ghost predicate Inv(s: Sys) {
    && Shaped(s)
    && (forall c :: c in s.pending ==> OpInv(s, c))
    && (forall id, c :: id in s.entries && 0 <= c < s.cpus ==> InOrder(s.entries[id][c], s.clock))
  }

  ghost predicate InOrder(m: Metrics, clock: nat) {
    m.start <= m.end <= clock
  }

  ghost predicate OpInv(s: Sys, c: nat)
    requires Shaped(s) && c in s.pending
  {
    var op := s.pending[c];
    && op.now <= s.clock
    && (!Holds(op) && op.id in s.entries ==> s.entries[op.id][c] == ZERO)
    && (op.Stale? || op.Orphan? ==> InOrder(op.value, op.now))
    && (forall id :: id in s.entries ==> s.entries[id][c].end <= op.now)
  }

  lemma StepKeepsShape(s: Sys, e: Event)
    requires Shaped(s) && Legal(s, e)
    ensures Shaped(Step(s, e))
  {
    hide Bump;
  }

  lemma ArriveKeepsInv(s: Sys, e: Event)
    requires e.Arrive? && Inv(s) && Legal(s, e)
    ensures Inv(Step(s, e))
  {
    var s' := Step(s, e);
    StepKeepsShape(s, e);
    forall c | c in s'.pending
      ensures OpInv(s', c)
    {
      if c != e.cpu {
        assert OpInv(s, c);
      }
    }
  }

  lemma BumpTimes(s: Sys, cpu: nat)
    requires Inv(s) && cpu in s.pending
    ensures var op := s.pending[cpu];
            && (op.Held? ==> InOrder(Bump(s.entries[op.id][cpu], op.len, op.now), op.now))
            && (op.Stale? ==> InOrder(Bump(op.value, op.len, op.now), op.now))
  {
    assert OpInv(s, cpu);
  }

  lemma TouchKeepsInv(s: Sys, e: Event)
    requires e.Touch? && Inv(s) && Legal(s, e)
    ensures Inv(Step(s, e))
  {
    hide Bump;
    var s' := Step(s, e);
    StepKeepsShape(s, e);
    assert OpInv(s, e.cpu);
    BumpTimes(s, e.cpu);
    forall c | c in s'.pending
      ensures OpInv(s', c)
    {
      assert OpInv(s, c);
    }
  }

  lemma CommitKeepsInv(s: Sys, e: Event)
    requires e.Commit? && Inv(s) && Legal(s, e)
    ensures Inv(Step(s, e))
  {
    hide Bump;
    var s' := Step(s, e);
    StepKeepsShape(s, e);
    assert OpInv(s, e.cpu);
    BumpTimes(s, e.cpu);
    forall c | c in s'.pending
      ensures OpInv(s', c)
    {
      assert OpInv(s, c);
    }
  }

  lemma RemoveKeepsInv(s: Sys, e: Event)
    requires e.Remove? && Inv(s)
    ensures Inv(Step(s, e))
  {
    var s' := Step(s, e);
    StepKeepsShape(s, e);
    forall c | c in s'.pending
      ensures OpInv(s', c)
    {
      assert OpInv(s, c);
    }
  }

  /** Reachable states keep every slot's times in order, whatever the interleaving. */
  lemma StepKeepsInv(s: Sys, e: Event)
    requires Inv(s) && Legal(s, e)
    ensures Inv(Step(s, e))
  {
    hide Inv, Step, Legal;
    match e
    case Arrive(_, _, _, _) => ArriveKeepsInv(s, e);
    case Touch(_) => TouchKeepsInv(s, e);
    case Commit(_, _, _) => CommitKeepsInv(s, e);
    case Remove(_) => RemoveKeepsInv(s, e);
  }

  // ---------------------------------------------------------------- conservation

  datatype Count = Count(packets: int, bytes: int)

  const NONE := Count(0, 0)

  function Plus(a: Count, b: Count): Count {
    Count(a.packets + b.packets, a.bytes + b.bytes)
  }

  function Of(m: Metrics): Count {
    Count(m.packets, m.bytes)
  }

  ghost function Total(slots: seq<Metrics>): Count {
    if |slots| == 0 then NONE else Plus(Total(slots[..|slots| - 1]), Of(slots[|slots| - 1]))
  }

  /** What the map holds for a flow, over all CPUs. */
  ghost function Live(entries: map<FlowId, seq<Metrics>>, f: FlowId): Count {
    if f in entries then Total(entries[f]) else NONE
  }

  /** What went out through the ring buffer for a flow. */
  ghost function Ringed(ring: seq<(FlowId, Metrics)>, f: FlowId): Count {
    if |ring| == 0 then NONE
    else
      var last := ring[|ring| - 1];
      Plus(Ringed(ring[..|ring| - 1], f), if last.0 == f then Of(last.1) else NONE)
  }

  /** How often the two counters of a slot wrap on an update. */
  function Wraps(m: Metrics, len: u32): Count {
    Count((m.packets + 1) / M32, (m.bytes + len) / M64)
  }

  /** Bookkeeping for one flow: what the hook accepted, lost for want of ring-buffer space,
      handed to user space or eviction, and wrote back after it had been handed over. */
  datatype Ledger = Ledger(accepted: Count, dropped: Count, drained: Count, doubled: Count, wraps: Count)

  const NEW_LEDGER := Ledger(NONE, NONE, NONE, NONE, NONE)

  ghost function Book(l: Ledger, s: Sys, e: Event, f: FlowId): Ledger
    requires Shaped(s) && Legal(s, e)
  {
    match e
    case Arrive(_, _, _, _) => l
    case Remove(id) => if id == f then l.(drained := Plus(l.drained, Live(s.entries, f))) else l
    case Touch(cpu) =>
      var op := s.pending[cpu];
      if op.id != f then l
      else l.(accepted := Plus(l.accepted, Count(1, op.len)),
              wraps := Plus(l.wraps, Wraps(s.entries[f][cpu], op.len)))
    case Commit(cpu, updated, reserved) =>
      var op := s.pending[cpu];
      if op.id != f then l
      else
        var one := Count(1, op.len);
        var l' := l.(accepted := Plus(l.accepted, one));
        match op
        case Fresh(_, _, _) => if updated || reserved then l' else l'.(dropped := Plus(l.dropped, one))
        case Bumped(_, _, _) => l
        case Stale(_, _, _, value) =>
          if updated then l'.(doubled := Plus(l.doubled, Of(value)), wraps := Plus(l.wraps, Wraps(value, op.len)))
          else l'.(dropped := Plus(l.dropped, one))
        case Orphan(_, _, _, value) => if updated then l.(doubled := Plus(l.doubled, Of(value))) else l
  }

  /** Everything accepted is in the map, in the ring buffer, dropped or drained; on top of that
      is what was written back, and counters lose their width each time they wrap. */
  ghost predicate Balanced(s: Sys, l: Ledger, f: FlowId) {
    var live, ring := Live(s.entries, f), Ringed(s.ring, f);
    && l.accepted.packets + l.doubled.packets ==
       live.packets + ring.packets + l.dropped.packets + l.drained.packets + M32 * l.wraps.packets
    && l.accepted.bytes + l.doubled.bytes ==
       live.bytes + ring.bytes + l.dropped.bytes + l.drained.bytes + M64 * l.wraps.bytes
  }

  lemma {:induction false} TotalUpdate(slots: seq<Metrics>, c: nat, m: Metrics)
    requires c < |slots|
    ensures Plus(Total(slots[c := m]), Of(slots[c])) == Plus(Total(slots), Of(m))
  {
    var last := |slots| - 1;
    if c == last {
      assert slots[c := m][..last] == slots[..last];
    } else {
      assert slots[c := m][..last] == slots[..last][c := m];
      TotalUpdate(slots[..last], c, m);
    }
  }

  lemma {:induction false} TotalOfZeroes(slots: seq<Metrics>)
    requires forall c :: 0 <= c < |slots| ==> slots[c] == ZERO
    ensures Total(slots) == NONE
  {
    if slots == [] {
    } else {
      TotalOfZeroes(slots[..|slots| - 1]);
    }
  }

  /** An update over an empty slot adds exactly the new metrics. */
  lemma PutAdds(s: Sys, id: FlowId, cpu: nat, m: Metrics, f: FlowId)
    requires cpu < s.cpus && (id in s.entries ==> |s.entries[id]| == s.cpus && s.entries[id][cpu] == ZERO)
    ensures Live(Put(s, id, cpu, m), f) == if id == f then Plus(Live(s.entries, f), Of(m)) else Live(s.entries, f)
  {
    hide Total;
    var slots := if id in s.entries then s.entries[id] else seq(s.cpus, _ => ZERO);
    TotalUpdate(slots, cpu, m);
    if id !in s.entries {
      TotalOfZeroes(slots);
    }
  }

  lemma HeldAdds(s: Sys, id: FlowId, cpu: nat, len: u32, now: nat)
    requires id in s.entries && cpu < |s.entries[id]|
    ensures var slots := s.entries[id];
            var entries := s.entries[id := slots[cpu := Bump(slots[cpu], len, now)]];
            var w := Wraps(slots[cpu], len);
            && Live(entries, id).packets == Live(s.entries, id).packets + 1 - M32 * w.packets
            && Live(entries, id).bytes == Live(s.entries, id).bytes + len - M64 * w.bytes
            && forall f :: f != id ==> Live(entries, f) == Live(s.entries, f)
  {
    hide Total;
    var slots := s.entries[id];
    TotalUpdate(slots, cpu, Bump(slots[cpu], len, now));
  }

  lemma BumpAdds(m: Metrics, len: u32, now: nat)
    ensures var b, w := Bump(m, len, now), Wraps(m, len);
            && b.packets == m.packets + 1 - M32 * w.packets
            && b.bytes == m.bytes + len - M64 * w.bytes
  {
  }

  lemma RingAdds(ring: seq<(FlowId, Metrics)>, id: FlowId, m: Metrics, f: FlowId)
    ensures Ringed(ring + [(id, m)], f) == Plus(Ringed(ring, f), if id == f then Of(m) else NONE)
  {
    assert (ring + [(id, m)])[..|ring|] == ring;
  }

  lemma FreshBalances(s: Sys, e: Event, l: Ledger, f: FlowId)
    requires e.Commit? && Inv(s) && Legal(s, e) && Balanced(s, l, f) && s.pending[e.cpu].Fresh?
    ensures Balanced(Step(s, e), Book(l, s, e, f), f)
  {
    hide Live, Ringed, Put, Inv;
    var op := s.pending[e.cpu];
    OpInvOf(s, e.cpu);
    PutAdds(s, op.id, e.cpu, First(op.len, op.now), f);
    RingAdds(s.ring, op.id, First(op.len, op.now), f);
  }

  lemma TouchBalances(s: Sys, e: Event, l: Ledger, f: FlowId)
    requires e.Touch? && Inv(s) && Legal(s, e) && Balanced(s, l, f)
    ensures Balanced(Step(s, e), Book(l, s, e, f), f)
  {
    hide Live, Ringed, Bump, Wraps, Inv;
    var op := s.pending[e.cpu];
    OpInvOf(s, e.cpu);
    HeldAdds(s, op.id, e.cpu, op.len, op.now);
  }

  lemma StaleBalances(s: Sys, e: Event, l: Ledger, f: FlowId)
    requires e.Commit? && Inv(s) && Legal(s, e) && Balanced(s, l, f) && s.pending[e.cpu].Stale?
    ensures Balanced(Step(s, e), Book(l, s, e, f), f)
  {
    hide Live, Ringed, Bump, Wraps, Put, Inv;
    var op := s.pending[e.cpu];
    OpInvOf(s, e.cpu);
    PutAdds(s, op.id, e.cpu, Bump(op.value, op.len, op.now), f);
    BumpAdds(op.value, op.len, op.now);
  }

  lemma OrphanBalances(s: Sys, e: Event, l: Ledger, f: FlowId)
    requires e.Commit? && Inv(s) && Legal(s, e) && Balanced(s, l, f) && s.pending[e.cpu].Orphan?
    ensures Balanced(Step(s, e), Book(l, s, e, f), f)
  {
    hide Live, Ringed, Put, Inv;
    var op := s.pending[e.cpu];
    OpInvOf(s, e.cpu);
    PutAdds(s, op.id, e.cpu, op.value, f);
  }

  lemma OpInvOf(s: Sys, cpu: nat)
    requires Inv(s) && cpu in s.pending
    ensures Shaped(s) && cpu < s.cpus && OpInv(s, cpu)
  {
  }

  lemma StepBalances(s: Sys, e: Event, l: Ledger, f: FlowId)
    requires Inv(s) && Legal(s, e) && Balanced(s, l, f)
    ensures Balanced(Step(s, e), Book(l, s, e, f), f)
  {
    hide Total, Ringed, Bump, Wraps;
    match e
    case Arrive(_, _, _, _) =>
    case Touch(_) => TouchBalances(s, e, l, f);
    case Commit(cpu, _, _) =>
      match s.pending[cpu] {
        case Fresh(_, _, _) => FreshBalances(s, e, l, f);
        case Bumped(_, _, _) =>
        case Stale(_, _, _, _) => StaleBalances(s, e, l, f);
        case Orphan(_, _, _, _) => OrphanBalances(s, e, l, f);
      }
    case Remove(_) =>
  }

  // ---------------------------------------------------------------- runs

  ghost function Run(cpus: nat, es: seq<Event>): Sys {
    if |es| == 0 then Sys(cpus, map[], map[], [], 0)
    else
      var s := Run(cpus, es[..|es| - 1]);
      if Shaped(s) && Legal(s, es[|es| - 1]) then Step(s, es[|es| - 1]) else s
  }

  ghost predicate LegalRun(cpus: nat, es: seq<Event>) {
    |es| == 0 || (LegalRun(cpus, es[..|es| - 1]) && Legal(Run(cpus, es[..|es| - 1]), es[|es| - 1]))
  }

  ghost function Books(cpus: nat, es: seq<Event>, f: FlowId): Ledger {
    if |es| == 0 then NEW_LEDGER
    else
      var s := Run(cpus, es[..|es| - 1]);
      var l := Books(cpus, es[..|es| - 1], f);
      if Shaped(s) && Legal(s, es[|es| - 1]) then Book(l, s, es[|es| - 1], f) else l
  }

  /** For every flow, in every interleaving: nothing is lost and nothing invented, except what a
      CPU writes back after its entry was handed over, and every slot's start precedes its end. */
  lemma {:induction false} Conservation(cpus: nat, es: seq<Event>, f: FlowId)
    requires LegalRun(cpus, es)
    ensures Inv(Run(cpus, es)) && Balanced(Run(cpus, es), Books(cpus, es, f), f)
  {
    hide Inv, Legal, Step, Book, Balanced, Shaped;
    if |es| == 0 {
      EmptyBalances(cpus, f);
    } else {
      Conservation(cpus, es[..|es| - 1], f);
      InvIsShaped(Run(cpus, es[..|es| - 1]));
      StepKeepsInv(Run(cpus, es[..|es| - 1]), es[|es| - 1]);
      StepBalances(Run(cpus, es[..|es| - 1]), es[|es| - 1], Books(cpus, es[..|es| - 1], f), f);
    }
  }

  lemma InvIsShaped(s: Sys)
    requires Inv(s)
    ensures Shaped(s)
  {
  }

  lemma EmptyBalances(cpus: nat, f: FlowId)
    ensures Inv(Sys(cpus, map[], map[], [], 0))
    ensures Balanced(Sys(cpus, map[], map[], [], 0), NEW_LEDGER, f)
  {
  }

  /** No removal catches a CPU between its lookup and its write-back. */
  ghost predicate Undisturbed(s: Sys, e: Event) {
    e.Remove? ==> forall c :: c in s.pending && Holds(s.pending[c]) ==> s.pending[c].id != e.id
  }

  ghost predicate UndisturbedRun(cpus: nat, es: seq<Event>) {
    |es| == 0 || (UndisturbedRun(cpus, es[..|es| - 1]) && Undisturbed(Run(cpus, es[..|es| - 1]), es[|es| - 1]))
  }

  lemma {:induction false} NothingDoubled(cpus: nat, es: seq<Event>, f: FlowId)
    requires UndisturbedRun(cpus, es)
    ensures Books(cpus, es, f).doubled == NONE
    ensures forall c :: c in Run(cpus, es).pending ==> var op := Run(cpus, es).pending[c]; !op.Stale? && !op.Orphan?
  {
    hide CommittedEntries, CommittedRing, Live, Wraps, Shaped;
    if |es| == 0 {
    } else {
      NothingDoubled(cpus, es[..|es| - 1], f);
    }
  }

  /** A CPU writes back an entry that was removed under it with something in its slot, be it what the
      CPU itself had just added. */
  ghost predicate WritesBack(s: Sys, e: Event, f: FlowId)
    requires Legal(s, e)
  {
    && e.Commit? && e.updated
    && var op := s.pending[e.cpu]; (op.Stale? || op.Orphan?) && op.id == f && Of(op.value) != NONE
  }

  ghost predicate NoWriteBack(cpus: nat, es: seq<Event>, f: FlowId)
    requires LegalRun(cpus, es)
  {
    |es| == 0 ||
    (NoWriteBack(cpus, es[..|es| - 1], f) && !WritesBack(Run(cpus, es[..|es| - 1]), es[|es| - 1], f))
  }

  /** The write-back term is empty exactly when no write-back took place. */
  lemma {:induction false} NothingDoubledIff(cpus: nat, es: seq<Event>, f: FlowId)
    requires LegalRun(cpus, es)
    ensures Books(cpus, es, f).doubled.packets >= 0 && Books(cpus, es, f).doubled.bytes >= 0
    ensures Books(cpus, es, f).doubled == NONE <==> NoWriteBack(cpus, es, f)
  {
    hide Live, Wraps, Step, Inv, Shaped, Balanced;
    if |es| == 0 {
    } else {
      NothingDoubledIff(cpus, es[..|es| - 1], f);
      Conservation(cpus, es[..|es| - 1], f);
      InvIsShaped(Run(cpus, es[..|es| - 1]));
    }
  }

  /** User space, ring buffer, map and drops add up to what was accepted, modulo the field widths. */
  ghost predicate Exact(s: Sys, l: Ledger, f: FlowId) {
    var live, ring := Live(s.entries, f), Ringed(s.ring, f);
    && (live.packets + ring.packets + l.dropped.packets + l.drained.packets - l.accepted.packets) % M32 == 0
    && (live.bytes + ring.bytes + l.dropped.bytes + l.drained.bytes - l.accepted.bytes) % M64 == 0
  }

  /** The books balance exactly when what was written back vanishes modulo the widths. */
  lemma ExactConservationIff(cpus: nat, es: seq<Event>, f: FlowId)
    requires LegalRun(cpus, es)
    ensures var l := Books(cpus, es, f);
            Exact(Run(cpus, es), l, f) <==> l.doubled.packets % M32 == 0 && l.doubled.bytes % M64 == 0
  {
    hide Run, Books, LegalRun, Live, Ringed, Inv;
    Conservation(cpus, es, f);
    var l := Books(cpus, es, f);
    Multiple32(l.doubled.packets, l.wraps.packets);
    Multiple64(l.doubled.bytes, l.wraps.bytes);
  }

  /** So they do in every run in which no removal comes between a CPU's lookup and its write-back. */
  lemma ExactConservation(cpus: nat, es: seq<Event>, f: FlowId)
    requires LegalRun(cpus, es) && UndisturbedRun(cpus, es)
    ensures Exact(Run(cpus, es), Books(cpus, es, f), f)
  {
    hide Run, Books, LegalRun, UndisturbedRun, Exact;
    NothingDoubled(cpus, es, f);
    ExactConservationIff(cpus, es, f);
  }

  lemma Multiple32(d: int, k: int)
    ensures (d - M32 * k) % M32 == 0 <==> d % M32 == 0
  {
    if d % M32 == 0 {
      assert d - M32 * k == M32 * (d / M32 - k);
    }
    if (d - M32 * k) % M32 == 0 {
      assert d == M32 * ((d - M32 * k) / M32 + k);
    }
  }

  lemma Multiple64(d: int, k: int)
    ensures (d - M64 * k) % M64 == 0 <==> d % M64 == 0
  {
    if d % M64 == 0 {
      assert d - M64 * k == M64 * (d / M64 - k);
    }
    if (d - M64 * k) % M64 == 0 {
      assert d == M64 * ((d - M64 * k) / M64 + k);
    }
  }

  /** One more event at the end of a run. */
  lemma Extend(cpus: nat, es: seq<Event>, e: Event, f: FlowId)
    requires LegalRun(cpus, es) && Legal(Run(cpus, es), e)
    ensures LegalRun(cpus, es + [e])
    ensures Shaped(Run(cpus, es))
    ensures Run(cpus, es + [e]) == Step(Run(cpus, es), e)
    ensures Books(cpus, es + [e], f) == Book(Books(cpus, es, f), Run(cpus, es), e, f)
  {
    hide Inv, Step, Book, Legal, Shaped, Balanced;
    Conservation(cpus, es, f);
    InvIsShaped(Run(cpus, es));
    assert (es + [e])[..|es|] == es;
  }

  /** One packet accounted for, a second one between its lookup and its update. */
  lemma Window(f: FlowId) returns (es: seq<Event>)
    ensures LegalRun(1, es)
    ensures Run(1, es) == Sys(1, map[f := [Metrics(1, 100, 1, 1)]], map[0 := Held(f, 100, 2)], [], 2)
    ensures Books(1, es, f) == NEW_LEDGER.(accepted := Count(1, 100))
  {
    hide Run, LegalRun, Books;
    NoEvents(1, f);
    Extend(1, [], Arrive(0, f, 100, 1), f);
    es := [] + [Arrive(0, f, 100, 1)];
    Extend(1, es, Commit(0, true, true), f);
    es := es + [Commit(0, true, true)];
    assert Run(1, es).entries[f] == [Metrics(1, 100, 1, 1)];
    assert Run(1, es).entries == map[f := [Metrics(1, 100, 1, 1)]];
    Extend(1, es, Arrive(0, f, 100, 2), f);
    es := es + [Arrive(0, f, 100, 2)];
  }

  lemma NoEvents(cpus: nat, f: FlowId)
    ensures LegalRun(cpus, []) && Run(cpus, []) == Sys(cpus, map[], map[], [], 0) && Books(cpus, [], f) == NEW_LEDGER
  {
  }

  /** The entry is handed over while the second packet's CPU still holds it. */
  lemma HandedOver(f: FlowId) returns (es: seq<Event>)
    ensures LegalRun(1, es)
    ensures Run(1, es) == Sys(1, map[], map[0 := Stale(f, 100, 2, Metrics(1, 100, 1, 1))], [], 2)
    ensures Books(1, es, f) == NEW_LEDGER.(accepted := Count(1, 100), drained := Count(1, 100))
  {
    hide Run, LegalRun, Books, Total;
    es := Window(f);
    Extend(1, es, Remove(f), f);
    OneSlot(Metrics(1, 100, 1, 1));
    assert Detach(Run(1, es), f) == map[0 := Stale(f, 100, 2, Metrics(1, 100, 1, 1))];
    es := es + [Remove(f)];
  }

  /** The write-back then counts the handed-over packet again: two packets accepted, three
      counted. */
  lemma RemovalInTheWindowDoubles(f: FlowId) returns (es: seq<Event>)
    ensures LegalRun(1, es)
    ensures Books(1, es, f).accepted.packets == 2
    ensures Live(Run(1, es).entries, f).packets + Books(1, es, f).drained.packets == 3
  {
    hide Run, LegalRun, Books, Total, Bump, Wraps;
    es := HandedOver(f);
    BumpedOnce();
    Extend(1, es, Commit(0, true, true), f);
    es := es + [Commit(0, true, true)];
    assert Run(1, es).entries[f] == [Metrics(2, 200, 1, 2)];
    OneSlot(Metrics(2, 200, 1, 2));
  }

  /** CPU 1 made the entry; CPU 0, its slot empty, has added a packet in place. */
  lemma AddedInPlace(f: FlowId) returns (es: seq<Event>)
    ensures LegalRun(2, es)
    ensures Run(2, es) == Sys(2, map[f := [Metrics(1, 100, 2, 2), Metrics(1, 100, 1, 1)]],
                              map[0 := Bumped(f, 100, 2)], [], 2)
    ensures Books(2, es, f) == NEW_LEDGER.(accepted := Count(2, 200))
  {
    hide Run, LegalRun, Books;
    NoEvents(2, f);
    Extend(2, [], Arrive(1, f, 100, 1), f);
    es := [] + [Arrive(1, f, 100, 1)];
    Extend(2, es, Commit(1, true, true), f);
    es := es + [Commit(1, true, true)];
    assert Run(2, es).entries[f] == [ZERO, Metrics(1, 100, 1, 1)];
    assert Run(2, es).entries == map[f := [ZERO, Metrics(1, 100, 1, 1)]];
    Extend(2, es, Arrive(0, f, 100, 2), f);
    es := es + [Arrive(0, f, 100, 2)];
    Extend(2, es, Touch(0), f);
    es := es + [Touch(0)];
    assert Run(2, es).entries[f] == [Metrics(1, 100, 2, 2), Metrics(1, 100, 1, 1)];
  }

  /** Removing the entry now and writing it back counts that packet twice, although the slot was empty
      when the CPU looked the entry up. */
  lemma RemovalAfterTheUpdateDoubles(f: FlowId) returns (es: seq<Event>)
    ensures LegalRun(2, es)
    ensures Books(2, es, f).accepted.packets == 2 && Books(2, es, f).doubled.packets == 1
    ensures Live(Run(2, es).entries, f).packets + Books(2, es, f).drained.packets == 3
  {
    hide Run, LegalRun, Books, Total;
    es := AddedInPlace(f);
    var mine, other := Metrics(1, 100, 2, 2), Metrics(1, 100, 1, 1);
    TwoSlots(mine, other);
    Extend(2, es, Remove(f), f);
    assert Detach(Run(2, es), f) == map[0 := Orphan(f, 100, 2, mine)];
    es := es + [Remove(f)];
    Extend(2, es, Commit(0, true, true), f);
    es := es + [Commit(0, true, true)];
    assert Run(2, es).entries[f] == [mine, ZERO];
    TwoSlots(mine, ZERO);
  }

  lemma TwoSlots(m: Metrics, n: Metrics)
    ensures Total([m, n]) == Plus(Of(m), Of(n))
  {
    OneSlot(m);
    assert [m, n][..1] == [m];
  }

  lemma BumpedOnce()
    ensures Bump(Metrics(1, 100, 1, 1), 100, 2) == Metrics(2, 200, 1, 2)
  {
  }

  lemma OneSlot(m: Metrics)
    ensures Total([m]) == Of(m)
  {
    assert [m][..0] == [];
  }
}
