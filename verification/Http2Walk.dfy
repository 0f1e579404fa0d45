/** The tracker's walk over the HTTP/2 frames of one buffer, and what it makes of what it saw. */
module Http2Walk {
  import opened Bytes
  import opened Options
  import opened Http2Frames

  /** User memory from the start of the buffer on: a probe may read past the bytes handed over. */
  type Memory = nat -> byte

  function HeaderAt(mem: Memory, p: nat): Header {
    seq(9, i requires 0 <= i => mem(p + i))
  }

  /** Where the i-th frame really starts: after the declared payload of the one before. */
  ghost function Boundary(mem: Memory, i: nat): nat {
    if i == 0 then 0
    else Boundary(mem, i - 1) + FRAME_HEADER_LEN + RfcLength(HeaderAt(mem, Boundary(mem, i - 1)))
  }

  /** The i-th frame as decoded. */
  ghost function FrameNo(mem: Memory, i: nat): Frame {
    ReadFrameHeader(HeaderAt(mem, Boundary(mem, i)))
  }

  /** The length of every frame that starts in the buffer can be read: its type is a defined one, say. */
  ghost predicate Readable(mem: Memory, len: int) {
    forall i: nat :: Boundary(mem, i) < len ==> LengthReadable(HeaderAt(mem, Boundary(mem, i)))
  }

  // ---------------------------------------------------------------- kinds of frame

  predicate IsHeaders(f: Frame) {
    f.kind == FRAME_HEADERS && f.streamId != 0
  }

  predicate StreamEnded(f: Frame) {
    IsHeaders(f) && f.flags % 2 == 1
  }

  predicate IsData(f: Frame) {
    f.length != 0 && f.kind == FRAME_DATA
  }

  predicate IsInvalid(f: Frame) {
    f.length == 0 && f.kind == FRAME_DATA
  }

  predicate IsFlagsOnly(f: Frame) {
    f.length <= 2
  }

  /** Headers that begin an exchange, when the stream is not known yet. */
  predicate Opens(f: Frame) {
    IsHeaders(f) && !(IsFlagsOnly(f) && StreamEnded(f))
  }

  // ---------------------------------------------------------------- the walk

  /** What the walk remembers: the stream whose entry it holds, the last headers since, any data. */
  datatype Scan = Scan(prev: Option<nat>, savedId: nat, savedPos: nat, data: bool)

  datatype Find = START | END | NEITHER

  /** Nothing of interest among the first `n` frames. */
  ghost predicate Quiet(mem: Memory, ongoing: set<nat>, n: nat) {
    forall i: nat :: i < n && IsHeaders(FrameNo(mem, i)) ==>
      FrameNo(mem, i).streamId !in ongoing && !Opens(FrameNo(mem, i))
  }

  /** Frame `k` is the first to name a stream that is going on; frame `l` has the last headers; no
      headers since `k` end their stream. */
  ghost predicate Holds(mem: Memory, ongoing: set<nat>, s: Scan, n: nat, k: nat, l: nat) {
    && k <= l < n
    && Quiet(mem, ongoing, k)
    && IsHeaders(FrameNo(mem, k)) && FrameNo(mem, k).streamId in ongoing
    && s.prev == Some(FrameNo(mem, k).streamId)
    && IsHeaders(FrameNo(mem, l)) && s.savedId == FrameNo(mem, l).streamId && s.savedPos == Boundary(mem, l)
    && (forall i: nat :: l < i < n ==> !IsHeaders(FrameNo(mem, i)))
    && (forall i: nat :: k <= i < n ==> !StreamEnded(FrameNo(mem, i)))
  }

  /** Frame `j` is the first of interest and opens a stream. */
  ghost predicate StartsAt(mem: Memory, ongoing: set<nat>, j: nat) {
    Quiet(mem, ongoing, j) && Opens(FrameNo(mem, j)) && FrameNo(mem, j).streamId !in ongoing
  }

  /** Frame `k` is the first to name a stream that is going on, and frame `j` has the first headers
      from there on that end theirs. */
  ghost predicate EndsAt(mem: Memory, ongoing: set<nat>, s: Scan, j: nat, k: nat) {
    && k <= j && Quiet(mem, ongoing, k)
    && IsHeaders(FrameNo(mem, k)) && FrameNo(mem, k).streamId in ongoing
    && s.prev == Some(FrameNo(mem, k).streamId)
    && (forall i: nat :: k <= i < j ==> !StreamEnded(FrameNo(mem, i)))
    && StreamEnded(FrameNo(mem, j)) && s.savedId == FrameNo(mem, j).streamId
  }

  /** Frame `k` has the first headers of a stream that is going on. */
  ghost predicate FirstOngoing(mem: Memory, ongoing: set<nat>, k: nat) {
    && IsHeaders(FrameNo(mem, k)) && FrameNo(mem, k).streamId in ongoing
    && forall i: nat :: i < k && IsHeaders(FrameNo(mem, i)) ==> FrameNo(mem, i).streamId !in ongoing
  }

  /** Frame `j` has the first headers from `k` on that end their stream. */
  ghost predicate FirstEnding(mem: Memory, k: nat, j: nat) {
    k <= j && StreamEnded(FrameNo(mem, j)) && forall i: nat :: k <= i < j ==> !StreamEnded(FrameNo(mem, i))
  }

  /** The stream that ends is the one whose record the walk holds exactly when the first headers of an
      ongoing stream and the first ending ones from there on carry the same id. */
  lemma EndsHeldStreamIff(mem: Memory, ongoing: set<nat>, s: Scan, j: nat, k: nat, first: nat, last: nat)
    requires EndsAt(mem, ongoing, s, j, k)
    requires FirstOngoing(mem, ongoing, first) && FirstEnding(mem, first, last)
    ensures s.prev == Some(s.savedId) <==> FrameNo(mem, first).streamId == FrameNo(mem, last).streamId
  {
    hide Boundary, FrameNo;
    assert first == k;
    assert last == j;
  }

  ghost predicate DataAmong(mem: Memory, n: nat) {
    exists i: nat :: i < n && IsData(FrameNo(mem, i))
  }

  /** The memory of the walk after the first `n` frames. */
  ghost predicate Scanned(mem: Memory, ongoing: set<nat>, s: Scan, n: nat, k: nat, l: nat) {
    && (s.data <==> DataAmong(mem, n))
    && (s.prev.None? ==> Quiet(mem, ongoing, n))
    && (s.prev.Some? ==> Holds(mem, ongoing, s, n, k, l))
  }

  /** What one frame that does not end the walk leaves behind. */
  function Noted(s: Scan, f: Frame, pos: nat, ongoing: set<nat>): Scan {
    var seen := s.(data := s.data || IsData(f));
    if !IsHeaders(f) then seen
    else
      var prev := if s.prev.None? && f.streamId in ongoing then Some(f.streamId) else s.prev;
      if prev.None? then seen else seen.(prev := prev, savedId := f.streamId, savedPos := pos)
  }

  /** The frame ends the walk. */
  predicate Stops(s: Scan, f: Frame, ongoing: set<nat>) {
    && IsHeaders(f)
    && if s.prev.None? && f.streamId !in ongoing then Opens(f) else StreamEnded(f)
  }

  lemma NoteFrame(mem: Memory, ongoing: set<nat>, s: Scan, n: nat, k: nat, l: nat) returns (k': nat, l': nat)
    requires Scanned(mem, ongoing, s, n, k, l)
    requires !Stops(s, FrameNo(mem, n), ongoing)
    ensures Scanned(mem, ongoing, Noted(s, FrameNo(mem, n), Boundary(mem, n), ongoing), n + 1, k', l')
  {
    hide Boundary, FrameNo;
    var f := FrameNo(mem, n);
    assert DataAmong(mem, n + 1) <==> DataAmong(mem, n) || IsData(f);
    k' := if s.prev.None? then n else k;
    l' := if IsHeaders(f) then n else l;
  }

  lemma NoteAgain(mem: Memory, ongoing: set<nat>, s: Scan, n: nat, k: nat, l: nat)
    requires n > 0 && Scanned(mem, ongoing, s, n, k, l)
    ensures Noted(s, FrameNo(mem, n - 1), Boundary(mem, n - 1), ongoing) == s
    ensures !Stops(s, FrameNo(mem, n - 1), ongoing)
  {
    hide Boundary, FrameNo;
    var f := FrameNo(mem, n - 1);
    assert IsData(f) ==> DataAmong(mem, n);
    if s.prev.Some? && IsHeaders(f) {
      assert l == n - 1;
    }
  }

  lemma AdvanceIsBoundaryIff(mem: Memory, i: nat)
    ensures Boundary(mem, i) + FrameNo(mem, i).length + FRAME_HEADER_LEN == Boundary(mem, i + 1)
       <==> LengthReadable(HeaderAt(mem, Boundary(mem, i)))
  {
    LengthMatchesRfcIff(HeaderAt(mem, Boundary(mem, i)));
  }

  /** The loop. `j` counts the frames passed over and `n` those looked at: the walk stops on a frame
      boundary inside the buffer; at the first headers that open an unknown stream, or end one once a
      known one was met; and otherwise not before the eighth frame, an empty data frame or the last
      frame that starts in the buffer. */
  method Walk(mem: Memory, len: int, ongoing: set<nat>)
    returns (s: Scan, find: Find, pos: nat, id: nat, ghost j: nat, ghost n: nat, ghost k: nat, ghost l: nat)
    requires Readable(mem, len)
    ensures j <= 8 && pos == Boundary(mem, j) && (len > 0 ==> pos < len)
    ensures find == START ==> id == FrameNo(mem, j).streamId && StartsAt(mem, ongoing, j)
    ensures find == END ==> s.savedPos == pos && EndsAt(mem, ongoing, s, j, k)
    ensures find == NEITHER ==>
              && Scanned(mem, ongoing, s, n, k, l)
              && (len <= 0 || n == j == 8 || (n == j + 1 && (Boundary(mem, n) >= len || IsInvalid(FrameNo(mem, j)))))
  {
    hide Boundary, FrameNo, Scanned, Holds, Quiet, StartsAt, EndsAt, HeaderAt, ReadFrameHeader;
    pos, find, id, s := 0, NEITHER, 0, Scan(None, 0, 0, false);
    j, n, k, l := 0, 0, 0, 0;
    ScanStarts(mem, ongoing);
    var record := new FrameRecord();
    for i := 0 to 8
      invariant find == NEITHER && pos == Boundary(mem, j) && (len > 0 ==> pos < len)
      invariant n == j == i || (n == j + 1 <= i && Boundary(mem, n) >= len)
      invariant Scanned(mem, ongoing, s, n, k, l)
    {
      if pos >= len { break; }
      var head := HeaderAt(mem, pos);
      var _ := record.Read(head);
      assert head[..9] == head;
      var f := record.frame;
      FrameIs(mem, j);
      ghost var before := s;
      if n > j { NoteAgain(mem, ongoing, s, n, k, l); }
      if IsHeaders(f) {
        id := f.streamId;
        if s.prev.None? && f.streamId in ongoing { s := s.(prev := Some(f.streamId)); }
        if s.prev.Some? {
          s := s.(savedId := f.streamId, savedPos := pos);
          if StreamEnded(f) {
            find := END;
            k := EndFound(mem, ongoing, before, s, j, k, l);
            break;
          }
        } else {
          if !(IsFlagsOnly(f) && StreamEnded(f)) {
            find := START;
            StartFound(mem, ongoing, before, j, k, l);
            break;
          }
        }
      }
      if IsData(f) { s := s.(data := true); }
      assert s == Noted(before, f, pos, ongoing) && !Stops(before, f, ongoing);
      if n == j {
        k, l := NoteFrame(mem, ongoing, before, n, k, l);
        n := n + 1;
      }
      AdvanceIsBoundaryIff(mem, j);
      if IsInvalid(f) { break; }
      if f.length + FRAME_HEADER_LEN >= len { break; }
      if pos < len - (f.length + FRAME_HEADER_LEN) {
        pos := pos + f.length + FRAME_HEADER_LEN;
        j := j + 1;
      }
    }
  }

  lemma ScanStarts(mem: Memory, ongoing: set<nat>)
    ensures Boundary(mem, 0) == 0 && Scanned(mem, ongoing, Scan(None, 0, 0, false), 0, 0, 0)
  {
  }

  lemma FrameIs(mem: Memory, j: nat)
    ensures FrameNo(mem, j) == ReadFrameHeader(HeaderAt(mem, Boundary(mem, j)))
  {
  }

  lemma StartFound(mem: Memory, ongoing: set<nat>, s: Scan, n: nat, k: nat, l: nat)
    requires Scanned(mem, ongoing, s, n, k, l) && s.prev.None?
    requires Opens(FrameNo(mem, n)) && FrameNo(mem, n).streamId !in ongoing
    ensures StartsAt(mem, ongoing, n)
  {
  }

  lemma EndFound(mem: Memory, ongoing: set<nat>, s: Scan, t: Scan, n: nat, k: nat, l: nat) returns (k': nat)
    requires Scanned(mem, ongoing, s, n, k, l)
    requires StreamEnded(FrameNo(mem, n)) && t.savedId == FrameNo(mem, n).streamId
    requires s.prev.None? ==> FrameNo(mem, n).streamId in ongoing
    requires t.prev == if s.prev.Some? then s.prev else Some(FrameNo(mem, n).streamId)
    ensures EndsAt(mem, ongoing, t, n, k')
  {
    hide Boundary, FrameNo;
    k' := if s.prev.Some? then k else n;
  }

  // ---------------------------------------------------------------- two streams in one buffer

  /** Headers of stream 1, then the last headers of stream 3, a byte of payload each. */
  const TWO_STREAMS: seq<byte> := [0, 0, 1, 1, 4, 0, 0, 0, 1, 0, 0, 0, 1, 1, 5, 0, 0, 0, 3, 0]

  function TwoStreams(p: nat): byte {
    if p < 20 then TWO_STREAMS[p] else 0
  }

  lemma HeaderBytes(mem: Memory, p: nat)
    ensures HeaderAt(mem, p) == [mem(p), mem(p + 1), mem(p + 2), mem(p + 3), mem(p + 4),
                                 mem(p + 5), mem(p + 6), mem(p + 7), mem(p + 8)]
  {
  }

  lemma TwoHeaders()
    ensures HeaderAt(TwoStreams, 0) == [0, 0, 1, 1, 4, 0, 0, 0, 1]
    ensures HeaderAt(TwoStreams, 10) == [0, 0, 1, 1, 5, 0, 0, 0, 3]
  {
    hide HeaderAt;
    HeaderBytes(TwoStreams, 0);
    HeaderBytes(TwoStreams, 10);
  }

  lemma TwoFrames()
    ensures Boundary(TwoStreams, 1) == 10
    ensures FrameNo(TwoStreams, 0) == Frame(1, 1, 4, 1)
    ensures FrameNo(TwoStreams, 1) == Frame(1, 1, 5, 3)
  {
    hide HeaderAt, ReadFrameHeader;
    TwoHeaders();
    assert Boundary(TwoStreams, 0) == 0;
    assert Boundary(TwoStreams, 1) == 10;
    Decodes(4, 1);
    Decodes(5, 3);
  }

  lemma Decodes(flags: byte, id: byte)
    requires id < 0x80
    ensures ReadFrameHeader([0, 0, 1, 1, flags, 0, 0, 0, id]) == Frame(1, 1, flags, id)
  {
    hide Ntohl, Le32;
    var h: Header := [0, 0, 1, 1, flags, 0, 0, 0, id];
    LengthMatchesRfcIff(h);
    StreamIdMatchesRfcIff(h);
    assert h[5..9] == [0, 0, 0, id];
  }

  lemma {:induction false} BehindTwoStreams(i: nat)
    requires i >= 2
    ensures Boundary(TwoStreams, i) >= 20
    decreases i
  {
    hide HeaderAt;
    TwoHeaders();
    if i == 2 {
      assert Boundary(TwoStreams, 0) == 0;
      assert Boundary(TwoStreams, 1) == 10;
    } else {
      BehindTwoStreams(i - 1);
    }
  }

  lemma TwoStreamsReadable()
    ensures Readable(TwoStreams, 20)
  {
    hide HeaderAt, Boundary, FrameNo, TwoStreams;
    TwoHeaders();
    TwoFrames();
    ScanStarts(TwoStreams, {});
    forall i: nat | Boundary(TwoStreams, i) < 20
      ensures LengthReadable(HeaderAt(TwoStreams, Boundary(TwoStreams, i)))
    {
      if i >= 2 {
        BehindTwoStreams(i);
      }
    }
  }

  /** The stream an end closes need not be the one whose record the walk holds: with stream 1 going on,
      the walk over those two frames ends stream 3 with the record of stream 1. */
  method EndMayCloseAnotherStream() returns (s: Scan, find: Find)
    ensures find == END && s.prev == Some(1) && s.savedId == 3
  {
    hide FrameNo, Boundary, Readable;
    TwoStreamsReadable();
    TwoFrames();
    var pos, id;
    ghost var j, n, k, l;
    s, find, pos, id, j, n, k, l := Walk(TwoStreams, 20, {1});
    ScanStarts(TwoStreams, {});
    BehindTwoStreams(2);
    assert j < 2 by {
      if j >= 2 { BehindTwoStreams(j); }
    }
  }
}
