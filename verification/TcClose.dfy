/** What the close state of a port's context means, over every run of packets on that port. */
module TcClose {
  import opened Bytes
  import opened Options
  import opened TcHttp

  /** One packet on the tracked port, and for outgoing ones whether it became a grown request
      whose context could be stored. */
  datatype Packet =
    | Out(flags: Flags, rewritten: bool, inserted: bool)
    | In(flags: Flags)

  /** Which FINs have been seen since the context was created or reset, which came first, and
      whether a bare ACK followed ours before the peer's. */
  datatype Seen = Seen(local: bool, peer: bool, localFirst: bool, acked: bool)

  const NOTHING := Seen(false, false, false, false)

  function Record(s: Seen, p: Packet): Seen {
    if p.Out? then
      if p.flags.fin && !s.local then s.(local := true, localFirst := !s.peer) else s
    else
      var acked := s.acked || (s.local && !s.peer && !p.flags.fin && p.flags.ack);
      s.(peer := s.peer || p.flags.fin, acked := acked)
  }

  /** The close state is a function of what has been seen. */
  function StateOf(s: Seen): ConnState {
    if s.local && s.peer then (if s.localFirst then CLOSING else LAST_ACK)
    else if s.local then (if s.acked then FIN_WAIT_2 else FIN_WAIT_1)
    else if s.peer then CLOSE_WAIT
    else ESTABLISHED
  }

  /** The context map beside an independent record of the FINs. */
  datatype Watch = Watch(contexts: Contexts, seen: Seen)

  function After(m: Contexts, k: u32, p: Packet): Contexts {
    if p.Out? then AfterEgress(m, k, p.flags, p.rewritten, p.inserted) else AfterIngress(m, k, p.flags)
  }

  ghost function Step(w: Watch, k: u32, p: Packet): Watch {
    var after := After(w.contexts, k, p);
    if k !in w.contexts || (p.Out? && p.flags.syn) then Watch(after, NOTHING)
    else Watch(after, Record(w.seen, p))
  }

  ghost function Run(w: Watch, k: u32, ps: seq<Packet>): Watch {
    if |ps| == 0 then w else Step(Run(w, k, ps[..|ps| - 1]), k, ps[|ps| - 1])
  }

  /** An aborting segment is dispatched without a rewrite. */
  ghost predicate Legal(w: Watch, k: u32, p: Packet) {
    p.Out? && Aborts(w.contexts, k, p.flags) ==> !p.rewritten
  }

  ghost predicate LegalRun(w: Watch, k: u32, ps: seq<Packet>) {
    |ps| == 0 || (LegalRun(w, k, ps[..|ps| - 1]) && Legal(Run(w, k, ps[..|ps| - 1]), k, ps[|ps| - 1]))
  }

  ghost predicate Inv(w: Watch, k: u32) {
    k in w.contexts ==>
      && w.contexts[k].state == StateOf(w.seen)
      && (w.seen.acked ==> w.seen.local && w.seen.localFirst)
      && (w.seen.localFirst ==> w.seen.local)
      && (w.seen.local && !w.seen.peer ==> w.seen.localFirst)
      && !(w.seen.local && w.seen.peer && w.seen.acked)
  }

  lemma StepKeepsInv(w: Watch, k: u32, p: Packet)
    requires Inv(w, k) && Legal(w, k, p)
    ensures Inv(Step(w, k, p), k)
  {
    hide Shift;
  }

  /** In every reachable state the context says exactly which FINs were seen and in which order. */
  lemma {:induction false} StateTellsWhatWasSeen(w: Watch, k: u32, ps: seq<Packet>)
    requires k !in w.contexts && LegalRun(w, k, ps)
    ensures Inv(Run(w, k, ps), k)
    ensures var now := Run(w, k, ps);
            k in now.contexts ==>
              var s := now.contexts[k].state;
              && (s == ESTABLISHED <==> !now.seen.local && !now.seen.peer)
              && (s == FIN_WAIT_1 || s == FIN_WAIT_2 <==> now.seen.local && !now.seen.peer)
              && (s == FIN_WAIT_2 <==> now.seen.local && !now.seen.peer && now.seen.acked)
              && (s == CLOSE_WAIT <==> now.seen.peer && !now.seen.local)
              && (s == CLOSING <==> now.seen.local && now.seen.peer && now.seen.localFirst)
              && (s == LAST_ACK <==> now.seen.local && now.seen.peer && !now.seen.localFirst)
  {
    hide Step, Legal;
    if |ps| == 0 {
    } else {
      StateTellsWhatWasSeen(w, k, ps[..|ps| - 1]);
      StepKeepsInv(Run(w, k, ps[..|ps| - 1]), k, ps[|ps| - 1]);
    }
  }

  /** A context goes exactly on a reset, or when the peer's packet finds both FINs seen (its own
      included) and acknowledges, or answers an already acknowledged FIN of ours. */
  lemma RemovedIff(w: Watch, k: u32, ps: seq<Packet>, p: Packet)
    requires k !in w.contexts && LegalRun(w, k, ps)
    requires k in Run(w, k, ps).contexts && Legal(Run(w, k, ps), k, p)
    ensures var now := Run(w, k, ps);
            var seen := Record(now.seen, p);
            k !in Step(now, k, p).contexts <==>
              if p.Out? then p.flags.rst && !p.flags.syn
              else p.flags.rst || (seen.local && seen.peer && (p.flags.ack || now.seen.acked))
  {
    hide Run, LegalRun, Shift;
    StateTellsWhatWasSeen(w, k, ps);
  }

  // ---------------------------------------------------------------- progress

  function Rank(s: Option<ConnState>): nat {
    match s
    case None => 0
    case Some(ESTABLISHED) => 3
    case Some(FIN_WAIT_1) => 2
    case Some(CLOSE_WAIT) => 2
    case Some(_) => 1
  }

  function StateAt(m: Contexts, k: u32): Option<ConnState> {
    if k in m then Some(m[k].state) else None
  }

  /** Packets that change the close state of a live context. */
  ghost function Changes(m: Contexts, k: u32, ps: seq<Packet>): nat {
    if |ps| == 0 || k !in m then 0
    else
      var after := After(m, k, ps[0]);
      (if StateAt(after, k) == StateAt(m, k) then 0 else 1) + Changes(after, k, ps[1..])
  }

  /** Every change lowers the rank, so closing takes at most three of them. */
  lemma {:induction false} ClosingTerminates(m: Contexts, k: u32, ps: seq<Packet>)
    requires forall i :: 0 <= i < |ps| && ps[i].Out? ==> !ps[i].flags.syn && (ps[i].flags.rst ==> !ps[i].rewritten)
    ensures Changes(m, k, ps) <= Rank(StateAt(m, k)) <= 3
  {
    if |ps| == 0 || k !in m {
    } else {
      RankFalls(m, k, ps[0]);
      ClosingTerminates(After(m, k, ps[0]), k, ps[1..]);
    }
  }

  lemma RankFalls(m: Contexts, k: u32, p: Packet)
    requires k in m
    requires p.Out? ==> !p.flags.syn && (p.flags.rst ==> !p.rewritten)
    ensures StateAt(After(m, k, p), k) == StateAt(m, k) || Rank(StateAt(After(m, k, p), k)) < Rank(StateAt(m, k))
  {
    hide Shift;
  }
}
