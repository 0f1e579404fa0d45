# Beyla, verified

A Dafny model of the parts of Beyla that rewrite live traffic, keep state per connection or cache
with expiry, and proofs of what they are meant to guarantee. Everything is stated for all inputs,
all runs or all reachable states. Code that works in place is modelled in place (classes, arrays,
loops) and proved against functions on values; the theorems are about those functions.

The files, by subject:

- **Bytes and checksums.** `Bytes`, `Options`, `OnesComplement`, `SkBuff` (the packet buffer and the kernel's
  checksum helper).
- **The TC program that adds a `traceparent` line to HTTP requests.** `TcChecksum` (TCP checksum),
  `TcInject` (making room, printing, repairing IPv4), `TcHttp` (the egress and ingress hooks),
  `TcRuns` (sequence numbers over whole runs), `TcPackets` (those runs are runs of packets), `TcClose`
  (the closing states), `Mod32`.
- **Traceparent text.** `Traceparent`: printing, decoding, finding it in a captured buffer.
- **HPACK.** `BitStrings`, `HuffmanTable`, `Huffman`, `Hpack`: the code of RFC 7541 and the encoder.
- **Trace ids in IP options.** `TcpInfo`, `IpOptions`, `TcTracer`.
- **Flows.** `Flows` (per-CPU accounting), `Initiator` (who opened the connection).
- **HTTP and connection tuples.** `ConnectionInfo`, `HttpTracker`, `HttpRuns`, `HttpOrigins` (where events
  come from).
- **HTTP/2.** `Http2Frames`, `Http2Walk`, `Http2Inject`.
- **Caches in user space.** `ReporterPool`, `PooledReporters`, `Expiry`, `MetricExpirer`.

What the code reads from outside (memory it probes, clocks, whether a map insert, a ring-buffer
reservation or a growth of the packet succeeds) is a parameter, so that both answers are covered.

Some promises turn out not to hold everywhere. Each of these has the exact condition under which it
does; the lemmas named here also give cases in which it does not:

- A segment continues the last one on the wire exactly if no growth has been forgotten since that one
  left (`TcRuns.SegmentContinuesIff`), and is at its place in the grown stream exactly if none has been
  forgotten since the SYN (`TcRuns.SegmentInPlaceIff`). The context is removed one packet too early
  when we close first: our last ACK leaves unshifted (`TcRuns.LastAckIsUnshifted`).
- A packet that is shifted but not rewritten keeps its TCP checksum; that stays right exactly if the
  old and the new number agree modulo 0xffff (`TcPackets.ShiftedIsValidIff`,
  `TcPackets.SmallShiftBreaksChecksum`).
- A `traceparent` line found at the very start of a buffer stops the scan and is not reported
  (`Traceparent.InsertedHeaderIsRecovered`, `Traceparent.HeaderAtStartIsMissed`).
- A flow entry removed from the map between a CPU's lookup and its write-back is counted twice, also
  when the CPU's slot was empty at the lookup (`Flows.RemovalInTheWindowDoubles`,
  `Flows.RemovalAfterTheUpdateDoubles`). What left the map, what is in it, the ring buffer and the
  drops add up to what was accepted exactly if what was so written back vanishes modulo the field
  widths (`Flows.ExactConservationIff`).
- The two directions of a flow share their key unless the first words in which the addresses differ
  are exactly 2^31 apart (`Initiator.KeyIsDirectionFree`).
- The branch that adds up request lengths is entered only after a failed map insert
  (`HttpRuns.AccumulateIff`, `HttpRuns.AccumulateIsReached`).
- Every event of a tracked request names the serving end as destination
  (`HttpOrigins.EventNamesServer`); a fallback event exactly if that end has the smaller port, an equal
  one, or is the source too (`HttpOrigins.FallbackNamesServerIff`, `HttpOrigins.FallbackMayNameClient`).
- HTTP/2 stream ids lose bit 24, and those of frames without payload or of undefined type are not
  swapped at all (`Http2Frames.StreamIdMatchesRfcIff`, `Http2Frames.HighStreamIsMisread`,
  `Http2Frames.EmptyFrameIsMisread`); lengths are read right for defined frame types
  (`Http2Frames.LengthMatchesRfcIff`).
- Appending to a HEADERS frame keeps its block intact exactly if there is no padding
  (`Http2Inject.FragmentGrowsIff`, `Http2Inject.PaddedFieldIsCut`).
- The reporter remembered for the last service is handed out again after eviction if a whole period
  passed since its last use (`ReporterPool.StepIsPlainIff`, `ReporterPool.DetachedWasEvicted`).
- A vector of two or more labels shares its data point with some other vector of that length exactly
  if one of its values holds a colon (`Expiry.SharedKeyIff`).
- The HTTP/2 walk ends the stream whose record it holds exactly if the first headers of an ongoing
  stream and the first ending ones after them have one id (`Http2Walk.EndsHeldStreamIff`,
  `Http2Walk.EndMayCloseAnotherStream`).

## Model

| member | source | states |
|---|---|---|
| OnesComplement.FoldCongruent | bpf/tc_http_tp.c:122-124 | carry folding keeps the sum modulo 0xffff and reaches zero only from zero |
| OnesComplement.FoldsToAllOnes | bpf/tc_http_tp.c:304-351 | folding gives all ones exactly for positive multiples of 0xffff: the receiver's test of RFC 1071 |
| OnesComplement.ByteOrderIndependent | bpf/tc_http_tp.c:67-92 | summing host-order words instead of network-order ones only multiplies the sum by 0x100 modulo 0xffff |
| OnesComplement.ValidIffHostOrder | bpf/tc_http_tp.c:304-351 | a block is valid on the wire exactly when its host-order sum is a positive multiple of 0xffff |
| OnesComplement.ValidMeansRecomputed | bpf/tc_ip.h:114-130 | the checksum inside a valid block is what a full recomputation stores, up to one's-complement zero |
| OnesComplement.CsumReplace2 | bpf/tc_ip.h:117-122 | an incremental two-byte update moves the checksum by old minus new modulo 0xffff (RFC 1624) |
| OnesComplement.CsumReplace4 | bpf/tc_ip.h:124-130 | the same for four bytes |
| TcChecksum.FoldCarries | bpf/tc_http_tp.c:122-124 | the fold loop ends, on the folded value |
| TcChecksum.CalculateDatasum | bpf/tc_http_tp.c:67-125 | the callback loop gives the folded sum of every range up to 32767 bytes, odd lengths included, without 32-bit overflow; 0 for an empty range |
| TcChecksum.CalculateDatasumInline | bpf/tc_http_tp.c:127-163 | the unrolled loop gives the same value wherever both forms apply |
| TcChecksum.ChecksumCompletes | bpf/tc_http_tp.c:317-348 | the complemented sum over pseudo-header and segment, stored in the zeroed field, makes the block valid |
| TcChecksum.SegmentCheck | bpf/tc_http_tp.c:317-346 | the two-stage sum equals the complement of the folded whole, whichever of the two loops is chosen |
| TcChecksum.UpdateTcpCsum | bpf/tc_http_tp.c:304-351 | the segment is valid under its pseudo-header afterwards, no byte but the checksum changes, and too short a packet is left alone |
| Traceparent.HexRoundTrip | bpf/trace_util.h:35-56 | decoding hex digits undoes encoding for every byte string |
| Traceparent.EncodeHex | bpf/trace_util.h:50-56 | the loop writes the digits of the source in place and nothing else |
| Traceparent.DecodeHex | bpf/trace_util.h:35-48 | the loop writes the decoded bytes and nothing else |
| Traceparent.MakeTpString | bpf/tracing.h:37-56 | the printed value is version, trace id, span id and flag, in 55 bytes |
| Traceparent.DecodeGoTraceparent | bpf/go_common.h:149-163 | the three fields come from their offsets |
| Traceparent.PrintThenDecode | bpf/tracing.h:37-56 | printing then decoding restores both ids and turns the flags into 0 or 1 |
| Traceparent.StrstrTpLoop | bpf/trace_common.h:72-100 | the scan reports the first match, unless it is at index 0 or past the last scanned one |
| Traceparent.ReadCapturedTraceparent | bpf/trace_common.h:314-334 | clamp, scan and extract read the 55 bytes that follow the header's name |
| Traceparent.InsertedHeaderIsRecovered | bpf/trace_common.h:72-100 | a header lying in the 1024-byte buffer is recovered exactly when it starts past index 0, among the scanned bytes and below 956, with no match before it; the extract offsets then restore what was printed |
| Traceparent.HeaderAtStartIsMissed | bpf/trace_common.h:72-100 | a header at the very start of the buffer is never reported |
| TcInject.Memchar | bpf/tc_http_tp.c:388-401 | the search finds the first occurrence within the bound, or none |
| TcInject.HeaderSlot | bpf/tc_http_tp.c:471-486 | the slot is just past the first line break of the payload's first 1023 bytes, and missing exactly when there is none |
| TcInject.MoveData | bpf/tc_http_tp.c:412-445 | the backward loop is a correct overlapping move |
| TcInject.MakeTpStringSkb | bpf/tc_http_tp.c:199-242 | the whole 70-byte line is printed, or nothing when it would not fit |
| TcInject.UpdateIpCsum | bpf/tc_http_tp.c:353-368 | only the checksum field changes, to the incremental update for 70 more bytes |
| TcInject.RepairIpHeader | bpf/tc_http_tp.c:520-528 | length and checksum of the IPv4 header are rewritten and no other byte |
| TcInject.RepairedIpHeaderValid | bpf/tc_http_tp.c:353-368 | a valid IPv4 header stays valid |
| TcInject.MovedIsSplice | bpf/tc_http_tp.c:412-445 | with up to 32767 bytes behind the slot the masked move is the exact splice |
| TcInject.SpliceHeader | bpf/tc_http_tp.c:454-512 | with a slot and the growth granted, the bytes of the whole packet, of any size; no early return after the growth can be taken; otherwise nothing changes |
| TcInject.InjectHeader | bpf/tc_http_tp.c:454-530 | the same but for the repaired fields; up to 32767 bytes behind the slot it is old prefix, header, old suffix with both headers right |
| TcHttp.ShiftedFields | bpf/tc_http_tp.c:548-563 | shifting moves the sequence number modulo 2^32 and nothing the hook reads later |
| TcHttp.Hooks.UpdateTcpSeq | bpf/tc_http_tp.c:548-563 | the packet with its sequence number shifted, every other byte kept |
| TcHttp.Hooks.ExtendSkb | bpf/tc_http_tp.c:454-546 | the context total grows by 70 exactly when the packet was rewritten; a failed insert leaves no entry |
| TcHttp.Hooks.TcHttpEgress | bpf/tc_http_tp.c:627-686 | one packet out: shift by the running total, follow the closing states, rewrite requests with a known context |
| TcHttp.Hooks.TcHttpIngress | bpf/tc_http_tp.c:688-713 | one packet in: the acknowledgement number is moved back by the running total, and the closing states followed |
| TcRuns.StepKeepsInv | bpf/tc_http_tp.c:627-713 | every packet keeps: each end, as it left, is the local one plus 70 per grown request it includes, and the context total is 70 per counted request |
| TcRuns.RunKeepsInv | bpf/tc_http_tp.c:627-713 | so does every run, whatever happens on other ports |
| TcRuns.SegmentContinuesIff | bpf/tc_http_tp.c:627-686 | a segment leaves at the number the last one ended at, as it left, exactly when the growths forgotten since then vanish modulo 2^31 |
| TcRuns.SegmentInPlaceIff | bpf/tc_http_tp.c:627-686 | a segment leaves at its place in the grown stream exactly when the context counts, modulo 2^31, every request grown since the SYN |
| TcRuns.AckMapsBackIff | bpf/tc_http_tp.c:688-713 | an ACK of the end of any sent segment, as it left, names its local end exactly when that end includes, modulo 2^31, as many growths as the context counts now |
| TcRuns.NothingForgotten | bpf/tc_http_tp.c:565-595 | with every insert succeeding and every context that counts something alive since the last SYN, nothing is forgotten |
| TcRuns.InjectionIsTransparent | bpf/tc_http_tp.c:627-713 | then the total is 70 per request, the next segment continues the last at its place and an ACK of everything sent is the local stack's own next number, whatever happened on the port before the SYN |
| TcRuns.LastAckIsUnshifted | bpf/tc_http_tp.c:597-625 | a concrete close after which the last ACK leaves with the wrong number |
| TcPackets.EgressIsStep | bpf/tc_http_tp.c:627-686 | what the egress hook leaves has the run model's number, 70 payload bytes more exactly when rewritten, the same ports, flags and acknowledgement, and the model's contexts and sent end are the hook's and the packet's |
| TcPackets.IngressIsStep | bpf/tc_http_tp.c:688-713 | what the ingress hook leaves has only its acknowledgement moved, back by the total, and the model's contexts are the hook's |
| TcPackets.PacketContinuesIff | bpf/tc_http_tp.c:627-686 | after any run, an outgoing packet starts where the last one ended exactly when no growth was forgotten in between, modulo 2^31 |
| TcPackets.AckedPacketMapsBackIff | bpf/tc_http_tp.c:688-713 | after any run, a packet acknowledging a sent end reaches the local stack with its own number exactly when that end includes the growths counted now, modulo 2^31 |
| TcPackets.ShiftedIsValidIff | bpf/tc_http_tp.c:548-563 | a valid segment stays valid under a bare shift exactly when old and new sequence numbers agree modulo 0xffff |
| TcPackets.SmallShiftBreaksChecksum | bpf/tc_http_tp.c:548-563 | so a shift below 65535 that does not carry past 2^32 never leaves it valid |
| TcClose.StepKeepsInv | bpf/tc_http_tp.c:582-625 | every packet keeps the state in step with the FINs seen |
| TcClose.StateTellsWhatWasSeen | bpf/tc_http_tp.c:582-625 | in every reachable state each closing state means exactly which FINs were seen, in which order, and whether ours was acknowledged |
| TcClose.RemovedIff | bpf/tc_http_tp.c:597-625 | a context goes exactly on a reset, or when both FINs have been seen and the peer's packet acknowledges or ours was acknowledged |
| TcClose.RankFalls | bpf/tc_http_tp.c:582-625 | every change of state lowers a rank |
| TcClose.ClosingTerminates | bpf/tc_http_tp.c:582-625 | closing takes at most three changes of state in any run |
| HuffmanTable.TableIsRanked | bpf/hpack.h:8-55 | every symbol has its place in the order of codes, which its length and code give |
| HuffmanTable.TableIsCanonical | bpf/hpack.h:8-55 | the tables are the canonical code: by length, then value, codes start at zero and each is the one before plus one, widened to its length, up to one short of thirty ones |
| HuffmanTable.LimitsDouble | bpf/hpack.h:8-55 | each length's block of codes starts after the previous one extended by a bit, and 30 ones stay free |
| HuffmanTable.CodesDistinct | bpf/hpack.h:8-55 | length and code identify the symbol |
| Huffman.CodeFits | bpf/hpack.h:8-55 | every code fits its length and none is all ones |
| Huffman.PrefixFree | bpf/hpack.h:8-55 | no code word is a prefix of another symbol's |
| Huffman.PaddingIsNoWord | bpf/hpack.h:57-59 | padding starts no code word |
| Huffman.DecodeWords | bpf/hpack.h:8-55 | decoding concatenated code words with up to seven ones gives every string back |
| Hpack.HpackCtx.FlushWord | bpf/hpack.h:92-100 | moving 32 bits out of the accumulator keeps the bit string |
| Hpack.HpackCtx.EncodeIter | bpf/hpack.h:75-103 | one symbol more is encoded, or the loop stops with -1 when the buffer is nearly full |
| Hpack.HpackCtx.StoreTail | bpf/hpack.h:128-167 | the tail switch appends the accumulator's last bytes |
| Hpack.TailBits | bpf/hpack.h:128-167 | each arm of the switch stores exactly the accumulator's low bits |
| Hpack.HpackCtx.HpackEncodeTp | bpf/hpack.h:105-168 | for every 55-byte source the result is -1 exactly from 416 code bits on, and otherwise the output is the code words padded with ones |
| Hpack.TraceparentFits | bpf/hpack.h:105-168 | a printed traceparent takes at most 330 bits, so at most 42 bytes |
| Hpack.EncodeTraceparent | bpf/hpack.h:105-168 | print, encode and decode gives the traceparent back, in at most 42 bytes |
| Hpack.NameIsEncoded | bpf/hpack.h:61-64 | the stored eight bytes are the padded encoding of "traceparent" and decode to it |
| IpOptions.HdrByteMasks | bpf/tc_ip.h:102-106 | the masks and the addition give version 4 and five more header words |
| IpOptions.CheckTracks | bpf/tc_ip.h:114-130 | the chain of replacements subtracts exactly what was added to the header, modulo 0xffff |
| IpOptions.InjectedHeaderValid | bpf/tc_ip.h:80-136 | a valid header without options becomes a valid 40-byte header |
| IpOptions.InjectedCheckIsRecomputed | bpf/tc_ip.h:114-130 | its checksum is the recomputed one, up to one's-complement zero |
| IpOptions.FoldIntoChecksum | bpf/tc_ip.h:114-130 | the loop of replacements stores the chain's result and touches no other byte |
| IpOptions.InjectTcIpOptionsIpv4 | bpf/tc_ip.h:80-136 | the packet leaves as rewritten header, option with the trace id, old payload; refused room changes nothing |
| IpOptions.InjectTcIpOptionsIpv6 | bpf/tc_ip.h:138-187 | the packet leaves with a Destination Options header holding the trace id; refused room changes nothing |
| IpOptions.Ipv4RoundTrip | bpf/tc_ip.h:28-57 | the parser finds the same connection, numbers and flags behind the longer header and reads the trace id back |
| IpOptions.Ipv6RoundTrip | bpf/tc_ip.h:59-78 | the same for IPv6, stepping over the added header |
| TcTracer.Tracer.AppIngress | bpf/tc_tracer.c:14-35 | an ACK packet with an option is recorded once, under its sorted connection |
| TcTracer.Tracer.UpdateOutgoingRequestSpanId | bpf/tc_tracer.c:37-61 | the Go invocation behind the connection gets the span id derived from the TCP numbers, every other is kept |
| TcTracer.Tracer.AppEgress | bpf/tc_tracer.c:90-116 | the option is written exactly for known connections the writer accepts with room granted; the pending entry is used up |
| TcTracer.BothEndsAgree | bpf/tc_tracer.c:24-86 | what the receiver records is the sender's trace id and the very span id the sender gave its own invocation |
| Flows.Monitor.FlowArrives | bpf/flows.c:147-168 | the first step of the hook, up to the lookup, keeping the run invariant |
| Flows.Monitor.FlowTouches | bpf/flows.c:169-178 | the second step, when the entry was found: the slot is updated in the map's own memory, keeping the run invariant |
| Flows.Monitor.FlowCommits | bpf/flows.c:180-265 | the last step: write-back, insert, ring-buffer fallback or drop, keeping the run invariant |
| Flows.StepKeepsInv | bpf/flows.c:147-265 | in every interleaving each slot with packets has its first time no later than its last |
| Flows.StepBalances | bpf/flows.c:147-265 | every step keeps accepted = live + ring + dropped + drained, counting wrap-arounds and write-backs |
| Flows.Conservation | bpf/flows_sock.c:204-292 | so does every run, for every flow |
| Flows.NothingDoubled | bpf/flows.c:147-265 | without a removal between a lookup and its write-back nothing is written back |
| Flows.NothingDoubledIff | bpf/flows.c:168-189 | nothing is counted twice exactly when no CPU wrote back an entry removed under it with something in its slot, its own latest packet included |
| Flows.ExactConservationIff | bpf/flows.c:147-265 | map, ring, drops and removed entries add up to what was accepted, modulo the field widths, exactly when what was written back vanishes modulo them |
| Flows.ExactConservation | bpf/flows.c:147-265 | so they do in every run without a removal between a lookup and its write-back |
| Flows.RemovalInTheWindowDoubles | bpf/flows.c:168-189 | a concrete run with a removal before the update in place: two packets accepted, three counted |
| Flows.RemovalAfterTheUpdateDoubles | bpf/flows.c:170-180 | a concrete run with a removal between the update in place and the write-back, the slot empty at the lookup: two accepted, three counted |
| Initiator.CompareIpv6 | bpf/flows_common.h:91-103 | the loop gives the sign of the first differing words' 32-bit difference |
| Initiator.CompareReversed | bpf/flows_common.h:91-103 | reversing the flow negates the result, except for antipodal addresses, where both are negative |
| Initiator.KeyIsDirectionFree | bpf/flows_common.h:105-128 | a flow and its reverse share the key exactly when not antipodal, and then see opposite ends as low |
| Initiator.KeyNamesEndpoints | bpf/flows_common.h:105-128 | the key holds both endpoints, the low one being the source or the destination as the flag says |
| Initiator.RawFlagsDecide | bpf/flows_sock.c:160-166 | the derived flags never change which packets close or open a connection |
| Initiator.Tracker.GetConnectionInitiator | bpf/flows_common.h:130-194 | the side named, whether or not the new entry finds room, and the map afterwards |
| Initiator.IndexIsKept | bpf/flows_common.h:130-194 | an entry stays as it is in every run without a closing call on its key |
| Initiator.SameEndpointFromBothDirections | bpf/flows_common.h:130-194 | from the first handshake packet stored until the close, both directions name the one endpoint the handshake implies |
| Initiator.AntipodalIsNotFound | bpf/flows_common.h:105-128 | for antipodal addresses the other direction finds no initiator |
| ConnectionInfo.ConnRecord.SwapOrder | bpf/http_types.h:223-229 | the two ends trade places in the structure |
| ConnectionInfo.ConnRecord.Sort | bpf/http_types.h:234-245 | the structure is sorted in place |
| ConnectionInfo.ConnRecord.Fixup | bpf/protocol_common.h:219-230 | the structure is reoriented in place by role and original port |
| ConnectionInfo.SortedIsLargerPortFirst | bpf/http_types.h:234-245 | sorting means larger port first, and is idempotent |
| ConnectionInfo.SortedIsDirectionFree | bpf/http_types.h:234-245 | both orientations get one key exactly when ports differ or the addresses are equal |
| ConnectionInfo.FixupUndoesSort | bpf/protocol_common.h:219-230 | for all ports, fixing up a sorted tuple gives clients the original and servers its reverse |
| ConnectionInfo.DestinationServes | bpf/protocol_common.h:62-78 | the reported destination is the serving endpoint, whichever way the request went |
| HttpRuns.Tracker.FinishHttp | bpf/protocol_http.h:79-94 | a complete record is reported if there is room and leaves the map |
| HttpRuns.Tracker.GetOrSetHttpInfo | bpf/protocol_http.h:103-117 | a request finishes a complete older one and takes its place, unless the insert fails |
| HttpRuns.Tracker.ProtocolHttp | bpf/protocol_http.h:208-288 | one packet: request, response, accumulated length, fallback record; the run invariant is kept |
| HttpRuns.Tracker.FinishPossibleDelayed | bpf/protocol_http.h:119-127 | a delayed response is finished by the next activity |
| HttpRuns.StepKeepsInv | bpf/protocol_http.h:79-288 | every event keeps records apart, times in order and reports counted |
| HttpRuns.RunKeepsInv | bpf/protocol_http.h:79-288 | so does every run of requests, responses, delayed finishes, fallbacks and evictions |
| HttpRuns.ReportsAreSound | bpf/protocol_http.h:79-127 | each request is reported at most once, each fallback record at most twice, always with a start, a status from 1 to 599 and an end no earlier than the start |
| HttpRuns.AccumulateIff | bpf/protocol_http.h:208-288 | exactly when the accumulating branch is taken: only after the request's own insert failed |
| HttpRuns.AccumulateIsReached | bpf/protocol_http.h:208-288 | two requests from the empty state, the second without room, take it |
| HttpRuns.FallbackReports | bpf/protocol_http.h:208-288 | exactly how often a fallback record is reported by the response it answers |
| HttpRuns.RequestNamesServer | bpf/protocol_http.h:137-159 | a new request is recorded with the serving endpoint as destination |
| HttpOrigins.StepOrigin | bpf/protocol_http.h:79-288 | every event keeps each record and each report traced to the request, and once answered to the response, of the run that made it |
| HttpOrigins.RunOrigin | bpf/protocol_http.h:79-288 | so does every run with a positive clock |
| HttpOrigins.EventNamesServer | bpf/protocol_http.h:137-204 | in every run over plain TCP sockets each event that is not a fallback one pairs a request with a later response on its connection, has the one's start and the other's status, and names the serving end as destination |
| HttpOrigins.FallbackNamesServerIff | bpf/k_tracer.h:565-588 | a fallback event comes from a filtered packet and names its destination exactly when that has the smaller port, an equal one, or is the source |
| HttpOrigins.FallbackMayNameClient | bpf/k_tracer.h:565-588 | a concrete run whose fallback event names the client |
| Http2Frames.FrameRecord.Read | bpf/http2_grpc.h:36-52 | the structure is overwritten by the decoded header; too short a buffer leaves it alone |
| Http2Frames.LengthMatchesRfcIff | bpf/http2_grpc.h:28-52 | the decoded length is that of section 4.1 of RFC 7540 exactly for defined types or lengths that read the same both ways |
| Http2Frames.StreamIdMatchesRfcIff | bpf/http2_grpc.h:28-52 | for every header: with a payload and a defined type the decoded stream id is the standard's with bit 24 cleared, right exactly when that bit is clear; otherwise it is right exactly when its four bytes are all 0 or all 255 |
| Http2Frames.EmptyFrameIsMisread | bpf/http2_grpc.h:44-46 | an empty frame of stream 1 is read as stream 0x800000 |
| Http2Frames.HighStreamIsMisread | bpf/http2_grpc.h:49 | a frame of stream 2^24 is read as stream 0 |
| Http2Walk.AdvanceIsBoundaryIff | bpf/protocol_http2.h:155-167 | a step lands on the next frame exactly when the length could be read |
| Http2Walk.Walk | bpf/protocol_http2.h:104-167 | the position stays inside the buffer and on a true frame boundary; what is found is the first frame of its kind; otherwise the walk went to the eighth frame, an empty data frame or the last frame |
| Http2Walk.EndsHeldStreamIff | bpf/protocol_http2.h:126-141 | the stream an end closes is the one whose record is held exactly when the first headers of an ongoing stream and the first ending headers from there on carry one id |
| Http2Walk.EndMayCloseAnotherStream | bpf/protocol_http2.h:126-141 | the walk over a concrete buffer of two streams ends stream 3 holding the record of stream 1 |
| Http2Inject.AppendedBytesParse | bpf/go_nethttp.h:823-848 | a decoder reads the 66 bytes as one literal field, name "traceparent" and the printed value, and goes on with what follows |
| Http2Inject.Writer.AppendField | bpf/go_nethttp.h:823-851 | the five writes with their masked offsets, and the advanced position |
| Http2Inject.Writer.AppendTraceparent | bpf/go_nethttp.h:803-875 | exactly which bytes change, masked offsets included; the frame still fills its part of the buffer with 66 bytes more and every other byte kept while the value starts below 65536; beyond that the value's place keeps its old bytes; without room nothing changes |
| Http2Inject.ExtendedPayload | bpf/go_nethttp.h:853-874 | the new payload is the old one plus the field; type, flags and stream stay |
| Http2Inject.FragmentGrowsIff | bpf/go_nethttp.h:823-874 | the field extends the header block exactly when the frame has no padding bytes |
| Http2Inject.PaddedFieldIsCut | bpf/go_nethttp.h:823-874 | with one byte of padding the old padding ends up in the block and the value loses its last character |
| ReporterPool.SweepIsExact | pkg/export/otel/common.go:175-188 | in access order, looking only at the oldest finds exactly the stale reporters |
| ReporterPool.StepKeepsInv | pkg/export/otel/common.go:147-201 | every request keeps the order by last access, one entry a service, the capacity, and the remembered reporter newest or evicted |
| ReporterPool.RunKeepsInv | pkg/export/otel/common.go:147-201 | so does every run with a clock that does not go back |
| ReporterPool.ShortcutIsLookup | pkg/export/otel/common.go:156-170 | while the remembered reporter is pooled the shortcut does what the lookup would |
| ReporterPool.DetachedIff | pkg/export/otel/common.go:175-188 | the remembered reporter leaves the pool exactly when a sweep is due and it was last used a period ago |
| ReporterPool.StepIsPlainIff | pkg/export/otel/common.go:147-201 | a request gets what plain lookup-or-create would give exactly unless its service is remembered and out of the pool |
| ReporterPool.DetachedWasEvicted | pkg/export/otel/common.go:156-170 | what it gets then has been handed to the eviction callback |
| ReporterPool.PromptRunIsPlain | pkg/export/otel/common.go:147-201 | with less than a period from the last access to each check, whole runs agree with the plain pool |
| ReporterPool.StepConserves | pkg/export/otel/common.go:190-201 | a reporter once made is pooled or evicted, once |
| ReporterPool.RunConserves | pkg/export/otel/common.go:147-201 | over every run, pooled plus evicted is what was made |
| PooledReporters.Pool.constructor | pkg/export/otel/common.go:124-143 | a new pool is empty and valid |
| PooledReporters.Pool.ExpireOldReporters | pkg/export/otel/common.go:175-188 | the loop removes the stale reporters at the old end, evicting them in order |
| PooledReporters.Pool.Create | vendor/github.com/hashicorp/golang-lru/v2/simplelru/lru.go:49-68 | a new entry becomes the newest; one too many evicts the oldest |
| PooledReporters.Pool.Lookup | pkg/export/otel/common.go:190-201 | the found entry moves to the new end, or one is made, or the error leaves all as it was |
| PooledReporters.Pool.Touch | pkg/export/otel/common.go:167-169 | through the shared reference the access shows in the newest entry and no other |
| PooledReporters.Pool.For | pkg/export/otel/common.go:147-171 | state and result are the value model's step, for every call and both clock readings |
| Expiry.KeyIsOwn | pkg/export/expire/expiry_map.go:113-115 | a vector without colons shares its key with no other of its length |
| Expiry.SharedKeyIff | pkg/export/expire/expiry_map.go:113-115 | with two or more labels, another vector of that length shares the key exactly when a value holds a colon |
| Expiry.ExpiryMap.GetOrCreate | pkg/export/expire/expiry_map.go:43-65 | the stored instance or the new one, its access time set, every other entry kept |
| Expiry.ExpiryMap.CollectExpired | pkg/export/expire/expiry_map.go:68-79 | the first pass lists every expired entry once and no other |
| Expiry.ExpiryMap.DeleteExpired | pkg/export/expire/expiry_map.go:68-86 | the entries split exactly into kept and returned |
| Expiry.ExpiryMap.DeleteAll | pkg/export/expire/expiry_map.go:89-98 | the map ends empty and every entry is returned once |
| MetricExpirer.StepBounds | pkg/export/otel/expirer.go:75-88 | after every record no entry has gone two periods without update |
| MetricExpirer.SurvivesIff | pkg/export/otel/expirer.go:75-88 | an entry survives exactly when no sweep is due or it was used within a period |
| MetricExpirer.RunBounds | pkg/export/otel/expirer.go:75-88 | the bound after any number of records |
| MetricExpirer.BoundIsTight | pkg/export/otel/expirer.go:75-88 | every age from zero and short of two periods is reached by some run |
| MetricExpirer.Expirer.RemoveOutdated | pkg/export/otel/expirer.go:107-111 | the metrics removed are those of the deleted entries, each once |
| MetricExpirer.Expirer.ForRecord | pkg/export/otel/expirer.go:75-88 | state as in the value model, the bound, the metrics removed, and the record's own data point returned |
| MetricExpirer.Expirer.RemoveAllMetrics | pkg/export/otel/expirer.go:131-135 | every metric is removed once and the map is empty |

## Left out

- TcChecksum.UpdateTcpCsum: validity is stated up to 32767 bytes of segment, because the source masks lengths to fifteen bits.
- TcInject.InjectHeader: checksum and exact splice are stated while at most 32767 bytes follow the slot, for the same reason; beyond that only which bytes end up where.
- TcHttp.Hooks.TcHttpEgress: a tail call that fails, or scratch memory that cannot be had, is folded into a refused growth.
- TcPackets.EgressIsStep: asks for a data offset of at least five words, which every TCP header has.
- TcTracer.Tracer.UpdateOutgoingRequestSpanId: only the Go branch; the lookup at bpf/tc_tracer.c:41 uses a key type that is not the map's.
- Http2Walk.Walk: stops before requests are stored and reported.
- Http2Inject.Writer.AppendTraceparent: the gRPC twin at bpf/go_grpc.h:672-784 is the same code on another writer and is not repeated.
- Expiry.ExpiryMap.GetOrCreate: single-threaded; the window between its read and write locks is not modelled.
- Flows.Monitor.FlowCommits: flags, direction and initiator of a flow record are not accounted for.
- Flows.Monitor.FlowTouches: the stores to one slot are one step; an element the kernel evicts while a hook holds it keeps its value, and its reuse for another flow (the map is an LRU one, bpf/flows_common.h:53) is not modelled.
- Flows.ExactConservation: speaks of what left the map; user space reads an entry before it deletes it (pkg/internal/netolly/ebpf/sock_tracer.go:186), and what it reads is not modelled.
- Parsing of packets into connection and TCP information (bpf/tcp_info.h) is modelled as a function of the packet, not as the filling of out-parameters.
- TCP retransmission and several connections on one local port, in the runs of sequence numbers: the source keys by port and keeps one total.
- Reading foreign memory: kernel structures, Go structure offsets, registers.
- Parent-trace lookup and trace creation (bpf/trace_common.h beyond the scan).
- Parsing of flow ids from Ethernet, IPv4 and IPv6 headers (bpf/flows.c:28-145).
- Matching of TLS sessions to connections, and the SQL, Redis and Kafka probes: map lookups only.
- Random ids, ring-buffer wake-ups, sampling, debug output.
- Configuration, Kubernetes metadata, name resolution, routing and the exporters: easy or library plumbing.
