/** Whole runs of the TC hooks: every interleaving of outgoing and incoming segments over all
    ports, seen from one local port. */
module TcRuns {
  import opened Bytes
  import opened TcInject
  import opened TcHttp
  import opened Mod32

  datatype Segment = Segment(seqNo: u32, ackNo: u32, flags: Flags, len: nat)

  datatype Event =
    | Out(port: u32, seg: Segment, rewritten: bool, inserted: bool)
    | In(port: u32, seg: Segment)

  /** The end of one transmitted segment, in the local stack's numbers and as it left, and how many
      grown requests the latter includes. */
  datatype Mark = Mark(local: int, sent: int, carried: nat)

  /** What has happened on port `k` since its last SYN: the local stack's next number, where the last
      segment ended as it left, how many grown requests the context accounts for, how many it has
      forgotten since that segment left, and how many there were. */
  datatype World = World(
    contexts: Contexts, local: int, sent: int, counted: nat, lost: nat, grown: nat, marks: seq<Mark>)

  function Size(seg: Segment): nat {
    seg.len + (if seg.flags.syn then 1 else 0) + (if seg.flags.fin then 1 else 0)
  }

  /** The number an outgoing segment leaves with. */
  function WireSeq(contexts: Contexts, k: u32, seg: Segment): int {
    (seg.seqNo + Shift(contexts, k, seg.flags)) % M
  }

  /** A SYN starts the numbering afresh; an abort drops what the context knew. */
  ghost function Before(w: World, k: u32, e: Event): World
    requires e.Out?
  {
    if e.seg.flags.syn then World(w.contexts, e.seg.seqNo, e.seg.seqNo, 0, 0, 0, [])
    else if Aborts(w.contexts, k, e.seg.flags) then w.(counted := 0, lost := w.lost + w.counted)
    else w
  }

  ghost function StepOut(w: World, k: u32, e: Event): World
    requires e.Out?
  {
    var after := AfterEgress(w.contexts, e.port, e.seg.flags, e.rewritten, e.inserted);
    if e.port != k then w.(contexts := after)
    else
      var b := Before(w, k, e);
      var more := if e.rewritten then 1 else 0;
      var lost := if e.rewritten && k !in after then 1 else 0;
      var local := (e.seg.seqNo + Size(e.seg)) % M;
      var sent := (WireSeq(w.contexts, k, e.seg) + Size(e.seg) + EXTEND_SIZE * more) % M;
      var carried := b.counted + more;
      World(after, local, sent, carried - lost, lost, b.grown + more, b.marks + [Mark(local, sent, carried)])
  }

  ghost function StepIn(w: World, k: u32, e: Event): World
    requires e.In?
  {
    var after := AfterIngress(w.contexts, e.port, e.seg.flags);
    if k in w.contexts && k !in after
    then w.(contexts := after, counted := 0, lost := w.lost + w.counted)
    else w.(contexts := after)
  }

  ghost function Step(w: World, k: u32, e: Event): World {
    if e.Out? then StepOut(w, k, e) else StepIn(w, k, e)
  }

  /** In order and without retransmission on port `k`; an aborting segment is never rewritten. */
  ghost predicate Legal(w: World, k: u32, e: Event) {
    e.Out? && e.port == k ==>
      && (e.seg.flags.syn || e.seg.seqNo == w.local)
      && (Aborts(w.contexts, k, e.seg.flags) ==> !e.rewritten)
  }

  ghost function Run(w: World, k: u32, es: seq<Event>): World {
    if |es| == 0 then w else Step(Run(w, k, es[..|es| - 1]), k, es[|es| - 1])
  }

  ghost predicate LegalRun(w: World, k: u32, es: seq<Event>) {
    |es| == 0 || (LegalRun(w, k, es[..|es| - 1]) && Legal(Run(w, k, es[..|es| - 1]), k, es[|es| - 1]))
  }

  ghost predicate Start(w: World, k: u32) {
    && k !in w.contexts && 0 <= w.local == w.sent < M
    && w.counted == w.lost == w.grown == 0 && w.marks == []
  }

  // ---------------------------------------------------------------- invariant

  /** The context holds 70 bytes per counted request, and every end that left runs ahead of the local
      stack by 70 bytes per grown request it includes. */
  ghost predicate Inv(w: World, k: u32) {
    && 0 <= w.local < M && 0 <= w.sent < M && w.counted + w.lost <= w.grown
    && (k !in w.contexts ==> w.counted == 0)
    && (k in w.contexts ==> w.contexts[k].xtraBytes == EXTEND_SIZE * w.counted % M)
    && Eq32(w.sent, w.local + EXTEND_SIZE * (w.counted + w.lost))
    && forall i :: 0 <= i < |w.marks| ==> MarkInv(w.marks[i], w.grown)
  }

  ghost predicate MarkInv(m: Mark, grown: nat) {
    && 0 <= m.local < M && 0 <= m.sent < M && m.carried <= grown
    && Eq32(m.sent, m.local + EXTEND_SIZE * m.carried)
  }

  lemma Advance(local: int, wire: int, grown: nat, size: nat, extra: nat)
    requires Eq32(wire, local + EXTEND_SIZE * grown)
    ensures Eq32((wire + size + EXTEND_SIZE * extra) % M, (local + size) % M + EXTEND_SIZE * (grown + extra))
  {
    hide Eq32;
    var more := EXTEND_SIZE * (grown + extra);
    Reduce(wire + size + EXTEND_SIZE * extra);
    Reduce(local + size);
    Translate((local + size) % M, local + size, more);
    Translate(wire, local + EXTEND_SIZE * grown, size + EXTEND_SIZE * extra);
    Substitute((wire + size + EXTEND_SIZE * extra) % M, wire + size + EXTEND_SIZE * extra,
               (local + size) % M + more, local + size + more);
  }

  lemma NextTotal(counted: nat)
    ensures (EXTEND_SIZE * counted % M + EXTEND_SIZE) % M == EXTEND_SIZE * (counted + 1) % M
  {
    var c := EXTEND_SIZE * counted;
    assert c % M + EXTEND_SIZE == c + EXTEND_SIZE - M * (c / M);
  }

  lemma BeforeKeepsInv(w: World, k: u32, e: Event)
    requires e.Out? && e.port == k && Inv(w, k)
    ensures var b := Before(w, k, e);
            && Shift(w.contexts, k, e.seg.flags) == EXTEND_SIZE * b.counted % M
            && b.counted <= b.grown
            && Eq32(b.sent, b.local + EXTEND_SIZE * (b.counted + b.lost))
            && (forall i :: 0 <= i < |b.marks| ==> MarkInv(b.marks[i], b.grown))
            && var m := AfterEgressHeader(w.contexts, k, e.seg.flags);
               && (k !in m ==> b.counted == 0)
               && (k in m ==> m[k].xtraBytes == EXTEND_SIZE * b.counted % M)
  {
    hide MarkInv;
  }

  /** The number a segment leaves with includes what the context counts. */
  lemma LeavesWith(local: int, shift: int, counted: nat)
    requires shift == EXTEND_SIZE * counted % M
    ensures Eq32((local + shift) % M, local + EXTEND_SIZE * counted)
  {
    hide Eq32;
    var c := EXTEND_SIZE * counted;
    Reduce(c);
    Translate(c % M, c, local);
    Reduce(local + shift);
    Transitive((local + shift) % M, local + shift, local + c);
  }

  lemma StepOutKeepsInv(w: World, k: u32, e: Event)
    requires e.Out? && e.port == k && Inv(w, k) && Legal(w, k, e)
    ensures Inv(StepOut(w, k, e), k)
  {
    hide Before, Shift, AfterEgressHeader, Eq32, Size;
    BeforeKeepsInv(w, k, e);
    var b, w' := Before(w, k, e), StepOut(w, k, e);
    LeavesWith(e.seg.seqNo, Shift(w.contexts, k, e.seg.flags), b.counted);
    Advance(e.seg.seqNo, WireSeq(w.contexts, k, e.seg), b.counted, Size(e.seg), if e.rewritten then 1 else 0);
    NextTotal(b.counted);
    forall i | 0 <= i < |w'.marks|
      ensures MarkInv(w'.marks[i], w'.grown)
    {
      if i < |b.marks| {
        assert MarkInv(b.marks[i], b.grown);
      }
    }
  }

  lemma OtherPortsDoNotMatter(w: World, k: u32, e: Event)
    requires e.port != k
    ensures (k in Step(w, k, e).contexts <==> k in w.contexts)
    ensures k in w.contexts ==> Step(w, k, e).contexts[k] == w.contexts[k]
    ensures Step(w, k, e) == w.(contexts := Step(w, k, e).contexts)
  {
  }

  lemma StepKeepsInv(w: World, k: u32, e: Event)
    requires Inv(w, k) && Legal(w, k, e)
    ensures Inv(Step(w, k, e), k)
  {
    hide MarkInv, Eq32;
    if e.port != k {
      OtherPortsDoNotMatter(w, k, e);
    } else if e.Out? {
      StepOutKeepsInv(w, k, e);
    }
  }

  lemma {:induction false} RunKeepsInv(w: World, k: u32, es: seq<Event>)
    requires Start(w, k) && LegalRun(w, k, es)
    ensures Inv(Run(w, k, es), k)
  {
    hide Step, Legal;
    if |es| == 0 {
    } else {
      RunKeepsInv(w, k, es[..|es| - 1]);
      StepKeepsInv(Run(w, k, es[..|es| - 1]), k, es[|es| - 1]);
    }
  }

  // ---------------------------------------------------------------- theorems

  lemma Drift(local: int, shift: int, end: int, counted: nat, carried: nat)
    requires 0 <= end < M && shift == EXTEND_SIZE * counted % M
    requires Eq32(end, local + EXTEND_SIZE * carried)
    ensures (local + shift) % M == end <==> EXTEND_SIZE * (carried - counted) % M == 0
  {
    hide Eq32;
    var c, d := EXTEND_SIZE * counted, EXTEND_SIZE * (carried - counted);
    LeavesWith(local, shift, counted);
    Substitute((local + shift) % M, local + c, end, local + c + d);
    Translate(0, d, local + c);
    Negate(d);
    Equal32((local + shift) % M, end);
  }

  /** A segment continues the last one on the wire exactly when no growth has been forgotten since that
      one left, counting what the segment itself makes the context forget. */
  lemma SegmentContinuesIff(w: World, k: u32, es: seq<Event>, e: Event)
    requires Start(w, k) && LegalRun(w, k, es)
    requires e.Out? && e.port == k && !e.seg.flags.syn && Legal(Run(w, k, es), k, e)
    ensures var now := Run(w, k, es);
            WireSeq(now.contexts, k, e.seg) == now.sent <==> Before(now, k, e).lost % 0x8000_0000 == 0
  {
    hide Run, LegalRun, Eq32, Shift;
    var now := Run(w, k, es);
    RunKeepsInv(w, k, es);
    BeforeKeepsInv(now, k, e);
    var b := Before(now, k, e);
    Drift(e.seg.seqNo, Shift(now.contexts, k, e.seg.flags), now.sent, b.counted, b.counted + b.lost);
    SeventyTimes(b.lost);
  }

  /** The place of the next byte in the stream the peer should see: every grown request 70 bytes longer. */
  function Place(w: World): int {
    (w.local + EXTEND_SIZE * w.grown) % M
  }

  /** A segment leaves at its place in the grown stream exactly when the context counts every request
      that has grown since the SYN. */
  lemma SegmentInPlaceIff(w: World, k: u32, es: seq<Event>, e: Event)
    requires Start(w, k) && LegalRun(w, k, es)
    requires e.Out? && e.port == k && !e.seg.flags.syn && Legal(Run(w, k, es), k, e)
    ensures var now := Run(w, k, es);
            WireSeq(now.contexts, k, e.seg) == Place(now) <==>
              (now.grown - Before(now, k, e).counted) % 0x8000_0000 == 0
  {
    hide Run, LegalRun, Eq32, Shift;
    var now := Run(w, k, es);
    RunKeepsInv(w, k, es);
    BeforeKeepsInv(now, k, e);
    var b := Before(now, k, e);
    Reduce(now.local + EXTEND_SIZE * now.grown);
    Drift(e.seg.seqNo, Shift(now.contexts, k, e.seg.flags), Place(now), b.counted, now.grown);
    SeventyTimes(now.grown - b.counted);
  }

  lemma Undrift(ack: int, xtra: int, local: int, counted: nat, grown: nat)
    requires 0 <= local < M && xtra == EXTEND_SIZE * counted % M
    requires Eq32(ack, local + EXTEND_SIZE * grown)
    ensures (ack - xtra) % M == local <==> EXTEND_SIZE * (grown - counted) % M == 0
  {
    hide Eq32;
    var c, g := EXTEND_SIZE * counted, EXTEND_SIZE * grown;
    Reduce(c);
    Translate(xtra, c, local - xtra);
    Reduce(ack - xtra);
    Translate(ack, local + g, -xtra);
    Transitive((ack - xtra) % M, ack - xtra, local + g - xtra);
    Substitute((ack - xtra) % M, local + g - xtra, local, local + c - xtra);
    Translate(g - c, 0, local + c - xtra);
    IsZero(g - c);
    Equal32((ack - xtra) % M, local);
  }

  /** An ACK of the end of any segment sent since the SYN, as it left, maps back to the local stack's
      number for it exactly when that end includes as many growths as the context counts now; of the
      last one sent, exactly when none has been forgotten since. */
  lemma AckMapsBackIff(w: World, k: u32, es: seq<Event>, i: nat)
    requires Start(w, k) && LegalRun(w, k, es) && i < |Run(w, k, es).marks|
    ensures var now := Run(w, k, es);
            && ((now.marks[i].sent - Unshift(now.contexts, k)) % M == now.marks[i].local <==>
                (now.marks[i].carried - now.counted) % 0x8000_0000 == 0)
            && ((now.sent - Unshift(now.contexts, k)) % M == now.local <==> now.lost % 0x8000_0000 == 0)
  {
    hide Run, LegalRun, Eq32;
    var now := Run(w, k, es);
    RunKeepsInv(w, k, es);
    var m, xtra := now.marks[i], Unshift(now.contexts, k);
    Undrift(m.sent, xtra, m.local, now.counted, m.carried);
    SeventyTimes(m.carried - now.counted);
    Undrift(now.sent, xtra, now.local, now.counted, now.counted + now.lost);
    SeventyTimes(now.lost);
  }

  ghost predicate IsSyn(k: u32, e: Event) {
    e.Out? && e.port == k && e.seg.flags.syn
  }

  /** A context that counts something survives the step, and a grown request ends up with one. */
  ghost predicate Remembers(w: World, k: u32, e: Event) {
    && (k in w.contexts && w.counted > 0 ==> k in Step(w, k, e).contexts)
    && (e.Out? && e.port == k && e.rewritten ==> k in Step(w, k, e).contexts)
  }

  /** So for every step from the last SYN on; what went before does not matter. */
  ghost predicate RemembersSinceSyn(w: World, k: u32, es: seq<Event>) {
    |es| == 0 ||
    var last, rest := es[|es| - 1], es[..|es| - 1];
    Remembers(Run(w, k, rest), k, last) && (IsSyn(k, last) || RemembersSinceSyn(w, k, rest))
  }

  lemma ForgetsNothing(w: World, k: u32, e: Event)
    requires Legal(w, k, e) && Remembers(w, k, e)
    requires IsSyn(k, e) || (w.counted == w.grown && w.lost == 0)
    ensures Step(w, k, e).counted == Step(w, k, e).grown && Step(w, k, e).lost == 0
  {
    hide Size, Shift, WireSeq;
  }

  lemma {:induction false} NothingForgotten(w: World, k: u32, es: seq<Event>)
    requires Start(w, k) && LegalRun(w, k, es) && RemembersSinceSyn(w, k, es)
    ensures Run(w, k, es).counted == Run(w, k, es).grown && Run(w, k, es).lost == 0
  {
    hide Step, Legal, Remembers, IsSyn;
    if |es| == 0 {
    } else {
      var last, rest := es[|es| - 1], es[..|es| - 1];
      if !IsSyn(k, last) {
        NothingForgotten(w, k, rest);
      }
      ForgetsNothing(Run(w, k, rest), k, last);
    }
  }

  /** While the context lives and every insert succeeds, since the last SYN, the injection is invisible:
      the context holds exactly 70 bytes per grown request, the next segment continues the last one and
      leaves at its place, and an ACK of everything sent names the local stack's own next number. */
  lemma InjectionIsTransparent(w: World, k: u32, es: seq<Event>, e: Event)
    requires Start(w, k) && LegalRun(w, k, es) && RemembersSinceSyn(w, k, es)
    requires e.Out? && e.port == k && !e.seg.flags.syn && Legal(Run(w, k, es), k, e)
    requires Aborts(Run(w, k, es).contexts, k, e.seg.flags) ==> Run(w, k, es).counted == 0
    ensures var now := Run(w, k, es);
            && Unshift(now.contexts, k) == EXTEND_SIZE * now.grown % M
            && WireSeq(now.contexts, k, e.seg) == now.sent == Place(now)
            && (now.sent - Unshift(now.contexts, k)) % M == now.local
  {
    hide Run, LegalRun, RemembersSinceSyn, Eq32, Legal, WireSeq, Place;
    var now := Run(w, k, es);
    NothingForgotten(w, k, es);
    RunKeepsInv(w, k, es);
    SegmentContinuesIff(w, k, es, e);
    SegmentInPlaceIff(w, k, es, e);
    Undrift(now.sent, Unshift(now.contexts, k), now.local, now.counted, now.counted);
  }

  /** After we close first and the peer answers with FIN and ACK, the context is gone and our
      last ACK leaves with the unshifted number. */
  lemma LastAckIsUnshifted(k: u32)
    ensures var none := Flags(false, false, false, true);
            var fin := none.(fin := true);
            var w := World(map[], 1000, 1000, 0, 0, 0, []);
            var es := [Out(k, Segment(1000, 0, none, 100), true, true),
                       Out(k, Segment(1100, 0, fin, 0), false, true),
                       In(k, Segment(0, 1171, fin, 0))];
            var e := Out(k, Segment(1101, 0, none, 0), false, true);
            && Start(w, k) && LegalRun(w, k, es) && Legal(Run(w, k, es), k, e)
            && WireSeq(Run(w, k, es).contexts, k, e.seg) == 1101 != Run(w, k, es).sent == 1171
  {
    var none := Flags(false, false, false, true);
    var fin := none.(fin := true);
    var w := World(map[], 1000, 1000, 0, 0, 0, []);
    var e1 := Out(k, Segment(1000, 0, none, 100), true, true);
    var e2 := Out(k, Segment(1100, 0, fin, 0), false, true);
    var e3 := In(k, Segment(0, 1171, fin, 0));
    var es := [e1, e2, e3];
    assert es[..2] == [e1, e2] && es[..2][..1] == [e1] && [e1][..0] == [];
    assert Run(w, k, []) == w && LegalRun(w, k, []);
    var w1 := Run(w, k, [e1]);
    assert w1 == Step(w, k, e1) && LegalRun(w, k, [e1]);
    assert w1.contexts == map[k := HttpCtx(70, ESTABLISHED)] && w1.local == 1100 && w1.sent == 1170;
    var w2 := Run(w, k, [e1, e2]);
    assert w2 == Step(w1, k, e2) && LegalRun(w, k, [e1, e2]);
    assert w2.contexts == map[k := HttpCtx(70, FIN_WAIT_1)] && w2.local == 1101 && w2.sent == 1171;
    assert Run(w, k, es) == Step(w2, k, e3);
  }
}
