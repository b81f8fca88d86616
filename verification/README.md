# gov-pass packet path: model and proofs

gov-pass captures outgoing TCP packets to port 443, holds the first ones of each connection, reassembles
their byte stream, and once the first TLS record (or, in immediate mode, the first payload) is complete it
sends that stretch again in small segments and drops the originals. Whenever it cannot do that it fails open:
the held packets go out unchanged and in order. This project models that path (`internal/`), the two
shutdown protocols around it, and the Windows command line quoting of the tray program, in Dafny, and proves
what they promise.

## How the model is built

* **Words, packets, checksums.** `Words` has the fixed-width integers; every wrap-around is written out
  (`Add32`, `Sub32`, `%`). `Wire` decodes and builds packets as byte strings, `PacketBuffer` does the same in
  place on arrays, `Checksum` is the Internet checksum, `Segmentation` cuts payloads into packets.
* **Reassembly, twice.** `Reassembly` is the simple form: a map from stream offsets to bytes.
  `ReassemblyBuffer.Buffer` is the program's form: a prefix, a sorted list of pending segments, counters and
  flags, with binary search and interval merging. Its `Push` refines the map form exactly.
* **The worker, twice.** `FlowMachine` is the simple form: `Decide` chooses what happens to a packet, `Execute`
  does it, `Step` applies both to one entry of the flow table and extends a trace of adapter calls. `Worker`
  (with `WorkerObjects`) is the program's form: a class that mutates its table, its byte counters, the flow
  objects and their buffers, method by method as in worker.go. `Worker.Worker.HandlePacket`, `TouchFlow` and `Gc`
  refine `Step`, so that what is proved of runs of the machine holds of the class.
* **Runs.** A `History` is a sequence of deliveries, touches and removals of idle flows with the worlds between
  them; `IsRun` says that it starts empty and follows `Step`. Theorems are about every such history
  (`FlowInvariants.HistoryOf`: every sequence of inputs has one). Time and the configuration are inputs of every
  step; a delivery has three configurations, one for each place where the program loads it (worker.go:137, 363 and
  392), so that a reload may fall between any two. Call number n of the adapter succeeds exactly when `fate(n)` holds; a
  theorem that needs success says `NoErrors`, which means that no step has reported an error (a failed injection that was
  made good by releasing the originals is not one).
* **What the parts are measured against.** `Layout` prints packets field by field and is inverse to the decoder;
  `Receiver` computes checksums as big-endian numbers modulo 65535 over pseudo-header bytes; `Tls.HelloHead` prints
  record headers; `Verdicts`, `Beginnings` and `Sizes` say what becomes of a flow, and in what sizes it is injected, in
  terms of the inputs, the bytes and the counters; `Reports` says what Run returns in terms of what its threads returned.
* **Protocols.** `EngineProtocol` and `NfqueueFlush` are state machines whose steps are the atomic actions of the
  threads (reads of flags and of the context, channel operations, adapter calls), interleaved in every way.
  `ShutdownDrain` is the worker's drain as a class, `Sharding` ties the workers together, `Composition` joins
  receive loop, workers and drain, and `Teardown` joins the engine with its adapter.

Hypotheses: captured packets are at most 65535 bytes long; the adapter is the NFQUEUE one, whose checksum
calculation cannot fail; an error that is a cancellation is returned only once the engine's context is
cancelled. `NfqueueFlush` takes it that the receive loop has returned before Flush begins;
`EngineProtocol.ShutdownIsOrdered` proves it, and `Teardown` does without. `MaxBufferBytes` may be any integer: its
conversion to uint32 is modelled.

## What turned out false, and what holds instead

* docs/DESIGN_LINUX.md:75 promises that overlapping data keeps the earliest bytes. The code does so only in the
  contiguous prefix; among pending fragments the newest bytes win. `Reassembly.EarliestPendingByteIsOverwritten`
  is an input for which it happens, `Reassembly.EarlierByteKeptIff` the exact condition for a byte to be kept.
* An injection does not send every byte it drops: it sends the contiguous prefix and then drops every held packet.
  `Completeness.DroppedByteIff` is the exact statement: a byte of a dropped packet is in the plan that was sent for it
  if and only if it did not lie past a gap. `Scenarios.AByteIsLost` is a run in which a captured byte is lost.
* docs/DESIGN_LINUX.md:68 promises PSH and FIN on the last segment of an injection only. After a reload this can fail,
  and the injection can send bytes twice: `Scenarios.ReloadedInjectionRepeats` is a run in which a retransmitted packet
  is so sent twice, with PSH before the last packet. An injection is regular if its window was completed by the newest
  packet, or something was out of order or overlapped, or nothing lies beyond the window (`Injection.Regular`); under a
  fixed configuration it always is (`Injection.OneConfigurationIsExact`). Otherwise every held packet is sent again,
  under its own flags, as far as it reaches beyond the window (`Injection.InjectionIsExact`). The exact conditions:
  * PSH and FIN are on the last packet only, if and only if the injection is regular, or of the held packets that reach
    beyond the window all but the last have neither flag (`Exactness.LastOnlyIff`).
  * It carries exactly the contiguous prefix, if and only if it is regular, or the held packets that reach beyond the
    window follow one another without overlap; if not, some byte is sent twice (`Exactness.ExactlyThePrefixIff`).
    `Scenarios.IrregularButExact` is a run in which an irregular injection meets both.
* The context check in `enqueue` (worker.go:64-68) is meant to keep packets out of the queues of workers that are
  shutting down. One packet can still get in. `EngineProtocol.AtMostOneIsLeft`: where a worker drained to the end, a
  packet is left in its queue if and only if it was put there after the drain had ended, and there is only one such
  packet; `EngineProtocol.OneCanBeLeft` is a run in which that happens although Run reports success.
* The shutdown drain reports that its limit was reached already when exactly as many packets as the limit were
  waiting and all of them were sent: `ShutdownDrain.LimitIsMet` is an input. Where nothing is refused, the limit is
  reported if and only if at least as many packets were waiting (`ShutdownDrain.StoppedWorker.ShutdownFailOpen`).
* The drain looks at its context twice for each queued packet, before and after taking it (worker.go:753 and 707). If
  the context ends between the two, the packet is neither sent nor in the queue: `ShutdownDrain.OneIsTaken` is an
  input. A packet is so lost if and only if all packets before it get through, the limit is not used up by those that
  are sent, and the context ends between the two looks at it (`ShutdownDrain.LostIff`); the condition is about what the
  context and the adapter answer and when, and not about what the drain did.
* A packet can be forgotten when a call fails (worker.go:152-154 and 185-187): if a packet closes the connection, or does
  not fit the budget of held bytes, and sending what its flow holds fails, it is neither sent nor held nor queued.
  `Forgetting.ForgottenIff`: that is the only case. `Scenarios.APacketIsForgotten` is a run in which it happens.
* A packet with payload and RST or FIN does not always remove its flow (worker.go:194-231): it does if and only if it is
  accepted and, where it carries SYN too, is the flow's first and carries RST (`Verdicts.GoneIff`).

## Model

| member | source | states |
|---|---|---|
| Reassembly.PushKeepsWellFormed | internal/reassembly/reassembly.go:20-32 | after any push the prefix is still the maximal covered one, it never shrinks, and nothing lies outside the window |
| Reassembly.AcceptedIffFits | internal/reassembly/reassembly.go:46-82 | a fragment is accepted if and only if it lies inside the window, whatever arrived before |
| Reassembly.RefusedKeepsContents | internal/reassembly/reassembly.go:46-82 | a refused push leaves all bytes and the prefix unchanged |
| Reassembly.AcceptedWrites | internal/reassembly/reassembly.go:65-153 | which offsets a push adds, and which byte wins at each: the old one in the prefix, the new one past it |
| Reassembly.EarlierByteKeptIff | internal/reassembly/reassembly.go:65-149 | the exact condition under which a byte received earlier survives a push |
| Reassembly.EarliestPendingByteIsOverwritten | internal/reassembly/reassembly.go:143-149 | two fragments after which a pending byte is not the earliest one received |
| Reassembly.PushAllCovers | internal/reassembly/reassembly.go:42-157 | the offsets present after any history are exactly those of its in-window fragments |
| Reassembly.PushAllHolds | internal/reassembly/reassembly.go:42-157 | if all fragments are cut from one stream modulo 2^32, every byte present is the stream's |
| Reassembly.ReassemblyIsLongestCoveredPrefix | internal/reassembly/reassembly.go:42-166 | any history of fragments of one stream gives exactly the longest covered prefix of that stream, across wrap-around |
| Reassembly.ReassemblyIsConfluent | internal/reassembly/reassembly.go:42-166 | histories with the same fragments agree, whatever their order and multiplicity |
| Reassembly.OutOfOrderIff | internal/reassembly/reassembly.go:83-85 | the out-of-order flag is set if and only if some in-window fragment arrived beyond the prefix of its moment |
| Reassembly.OverlapIff | internal/reassembly/reassembly.go:62-131 | the overlap flag is set if and only if some fragment started within the prefix of its moment and reached beyond it, or overlapped or touched what lay past it |
| ReassemblyBuffer.Buffer.constructor | internal/reassembly/reassembly.go:34-39 | a new buffer stands for the empty map |
| ReassemblyBuffer.Buffer.ValidMeans | internal/reassembly/reassembly.go:22-32 | totalBytes is the number of mapped offsets, contig the maximal prefix, and a buffer that saw nothing out of order has no pending segment |
| ReassemblyBuffer.Buffer.Search | internal/reassembly/reassembly.go:102 | the binary search splits the segments at the offset |
| ReassemblyBuffer.Buffer.FindSpan | internal/reassembly/reassembly.go:102-131 | the run found is exactly the segments that overlap or touch the new interval, and the hull is theirs |
| ReassemblyBuffer.Buffer.CountMerged | internal/reassembly/reassembly.go:133-136 | the uint32 count of merged bytes is their exact sum |
| ReassemblyBuffer.Buffer.Merge | internal/reassembly/reassembly.go:143-149 | the merged segment has the new bytes where the fragment lies and the old ones elsewhere |
| ReassemblyBuffer.Buffer.MergeIn | internal/reassembly/reassembly.go:101-153 | after merging, the segments are sorted, non-empty, separated by gaps, and stand for the map with the fragment written in; their total fits the budget |
| ReassemblyBuffer.Buffer.Compact | internal/reassembly/reassembly.go:159-166 | compaction moves the prefix exactly to the first gap of the map |
| ReassemblyBuffer.Buffer.Append | internal/reassembly/reassembly.go:87-95 | in-order data extends the map at the prefix; the byte-budget refusal is unreachable |
| ReassemblyBuffer.Buffer.Insert | internal/reassembly/reassembly.go:87-157 | a trimmed fragment inside the window is always accepted: the second byte-budget refusal is unreachable too |
| ReassemblyBuffer.Buffer.Place | internal/reassembly/reassembly.go:62-157 | trimming, window check and both flags in terms of the map |
| ReassemblyBuffer.Buffer.Push | internal/reassembly/reassembly.go:42-157 | new contents, counters, flags and result are those of the map form, for every state and fragment; no uint32 sum wraps past its guard |
| Tls.DetectClientHelloRecord | internal/tls/tls.go:13-32 | more bytes are asked for exactly below six; a match is exactly a handshake record of version 3.1 to 3.4 with a positive length that starts with a ClientHello, and its length is that of bytes 3 and 4 |
| Tls.DetectIff | internal/tls/tls.go:13-32 | matched with length n are exactly the buffers that start with a printed record header of that length, for every version and every n from 1 to 65535; all others of six or more bytes mismatch (sections 4 and 5.1 of RFC 8446) |
| Tls.StreamStarts | internal/tls/tls.go:13-32 | the same of a stream, byte by byte from its first sequence number |
| Tls.VerdictIsStable | internal/tls/tls.go:13-32 | on six or more bytes the verdict never changes as bytes are appended (section 5.1 of RFC 8446) |
| Tls.VerdictOfPrefix | internal/tls/tls.go:13-32 | the verdict on a reassembled prefix is a function of the stream and its first sequence number |
| Wire.OnlyPshAndFinCleared | internal/engine/worker.go:423-424 | PSH and FIN are cleared, every other flag is kept |
| Wire.BuildDecodes | internal/engine/worker.go:483-514 | decoding a built packet gives the template's header with the requested sequence number, flags and payload; the total length is right up to 65535 bytes (what decoding is: `Layout.DecodesIff`) |
| Layout.DecodeLaid | internal/packet/packet.go:73-112 | any header laid out by the standards, with header lengths of 5 to 15 words, options, flags and payload, decodes to exactly its fields, and the payload starts right behind it (section 3.1 of RFC 791, section 3.1 of RFC 9293) |
| Layout.DecodesIff | internal/packet/packet.go:73-112 | printer and decoder are inverse: a byte string decodes to some fields if and only if it is a header with these fields, laid out, and a payload |
| Layout.RefusedIff | internal/packet/packet.go:73-112 | refused are exactly the byte strings that are too short for their headers, not of version 4, fragments, or not TCP |
| Checksum.FoldIsResidue | internal/packet/checksum.go:56-61 | folding terminates in 16 bits, keeps the residue modulo 65535, and gives zero only for zero |
| Checksum.ChecksumSum | internal/packet/checksum.go:44-54 | the loop adds the big-endian words modulo 2^32, and never wraps for a packet of at most 65535 bytes |
| Checksum.FoldChecksum | internal/packet/checksum.go:56-61 | the loop ends and its result is the fold |
| Checksum.Checksum | internal/packet/checksum.go:5-9 | the complement of the folded word sum (section 1 of RFC 1071) |
| Checksum.TCPChecksumIPv4 | internal/packet/checksum.go:18-42 | the checksum over pseudo-header and segment for every total length field, the short and the inconsistent ones included (in bytes: `Receiver.TCPFieldIs`) |
| Checksum.SealedVerifies | internal/adapter/nfqueue_linux.go:119-135 | after checksum calculation the sums over the IP header and over pseudo-header and segment fold to 0xFFFF (in bytes, as a receiver computes them: `Receiver.SealedIsAccepted`) |
| Receiver.VerifiesIff | internal/packet/checksum.go:44-61 | a word sum folds to 0xFFFF if and only if the bytes, padded, are as a big-endian number a positive multiple of 65535 |
| Receiver.TCPFieldIs | internal/packet/checksum.go:18-42 | the TCP checksum computed is the complement of the folded sum of the twelve bytes of the pseudo-header and the segment's bytes, up to the end that the total length gives |
| Receiver.SealedIsAccepted | internal/adapter/nfqueue_linux.go:119-135 | a sealed packet passes a receiver's checks of the header and of pseudo-header bytes followed by the segment (section 3.1 of RFC 791, section 3.1 of RFC 9293) |
| Checksum.SealedReads | internal/adapter/nfqueue_linux.go:119-135 | checksum calculation does not change what a packet decodes to |
| PacketBuffer.SetIPv4TotalLength | internal/packet/packet.go:128-133 | only the two bytes of the field change, and too short a buffer is left alone |
| PacketBuffer.SetIPv4ID | internal/packet/packet.go:121-126 | likewise for the identification |
| PacketBuffer.SetIPv4Checksum | internal/packet/packet.go:135-148 | likewise for the IP checksum, zero included |
| PacketBuffer.SetTCPChecksum | internal/packet/packet.go:157-170 | likewise for the TCP checksum, zero included |
| PacketBuffer.SetTCPSeq | internal/packet/packet.go:150-155 | likewise for the sequence number |
| PacketBuffer.SetTCPFlags | internal/packet/packet.go:172-177 | likewise for the flags |
| PacketBuffer.BuildPacket | internal/engine/worker.go:483-514 | copying and editing in place yields the packet that `BuildDecodes` is about, and the next IP id modulo 2^16 |
| PacketBuffer.CalcChecksums | internal/adapter/nfqueue_linux.go:119-135 | zeroing, summing and writing in place yields the sealed packet that `SealedVerifies` is about; a buffer without both headers is left alone |
| PacketBuffer.BuildSealed | internal/engine/worker.go:468-474 | build followed by checksums is one packet as it goes to the adapter |
| Segmentation.ClampSegmentPayload | internal/engine/worker.go:590-606 | the lengths up to the result are exactly those allowed by the template's payload, the 65535 bytes of a packet and the cap; zero comes exactly when none is |
| Segmentation.ClampIsLargest | internal/engine/worker.go:590-606 | the result is the largest length allowed, and there is only one such |
| Segmentation.ChunkPayload | internal/engine/worker.go:608-624 | the loop produces the chunks that `ChunksJoin` is about |
| Segmentation.SplitFirstSegments | internal/engine/worker.go:560-588 | the loop produces the pieces that `SplitFirstJoin` is about |
| Segmentation.ChunksJoin | internal/engine/worker.go:608-624 | chunks join to the payload, and none is empty or above the limit |
| Segmentation.SplitFirstJoin | internal/engine/worker.go:560-588 | there are either no pieces, exactly when the payload is no longer than the first one, or at least two that join to the payload, the first of the clamped length |
| Segmentation.WiredReads | internal/engine/worker.go:468-474 | a sealed packet reads back as asked, its total length is not truncated up to 65535 bytes, and both its checksums verify |
| Segmentation.RunCarries | internal/engine/worker.go:458-481 | segments are sent at consecutive sequence numbers with consecutive IP ids modulo 2^16, and together carry exactly their bytes |
| Segmentation.CarriesConcat | internal/engine/worker.go:430-446 | a second run of segments continues the first without gap in sequence numbers and ids |
| FlowMachine.DecideHolds | internal/engine/worker.go:145-345 | only packets with payload of new or collecting flows, within the held-bytes budget, are ever held |
| FlowInvariants.StepKeepsSane | internal/engine/worker.go:136-346 | every step, failed calls and reloads included, keeps flows valid and both counters exact |
| FlowInvariants.HistoryOf | internal/engine/worker.go:94-134 | every sequence of inputs has a history, whatever the adapter does, so that the theorems about histories are about all runs |
| FlowInvariants.CountersAreExact | internal/engine/worker.go:191-208 | in every reachable state heldBytes and reassemblyBytes are the exact sums over the table, so that clamping at zero never changes a value |
| FlowInvariants.NoClampBites | internal/engine/worker.go:646-668 | giving back a flow's bytes never goes below zero |
| FlowInvariants.FlowsAtRest | internal/engine/worker.go:145-345 | a tabled flow is collecting with a non-empty hold and a buffer, or injected or passing through with neither, and holds only packets of its own connection |
| Transparency.EverythingSentIsTheStream | internal/engine/worker.go:136-558 | in every reachable state, whatever failed: if a connection's captured payloads are cut from one stream, every packet sent for it carries that stream's bytes at their sequence numbers modulo 2^32 |
| Transparency.InjectedAtMostOnce | internal/engine/worker.go:448-455 | at most one completed injection per life of a flow, and an injected flow has had exactly one |
| Outcomes.LocalStepOutcome | internal/engine/worker.go:136-346 | a step without error either lets the packets of its flow go out in order or replaces them all by a plan of rebuilt ones |
| Conservation.StepIsLocal | internal/engine/worker.go:136-161 | a step touches only the table entry of its own connection and calls the adapter only for it |
| Conservation.PacketsAreConserved | internal/engine/worker.go:136-346 | each packet given to a worker is exactly once sent, dropped or held by its own flow, and packets with payload leave in order of arrival |
| Forgetting.ForgottenIff | internal/engine/worker.go:136-190 | after every delivery, whatever calls fail: its packet is held by its flow or some call of the step was about it, unless it closes the connection or does not fit the held-bytes budget of a collecting flow and sending what the flow holds fails; then it is neither, unless an equal packet was held |
| Scenarios.APacketIsForgotten | internal/engine/worker.go:179-190 | a run in which a packet is neither sent nor held after its step |
| Failures.StepGoesOn | internal/engine/worker.go:430-482 | whatever fails: a step reports an error if and only if a call for a captured packet fails in it, and that call is its last event; after a failed call for a rebuilt packet no rebuilt packet is sent in the step |
| Replacement.DropsAreExchanges | internal/engine/worker.go:430-454 | a captured packet is dropped only right after a whole plan was sent, together with all that its flow held, and every recorded injection is such an exchange |
| Lifecycle.LifeCycle | internal/engine/worker.go:145-345 | injected and passing through are absorbing until removal; no collecting flow is removed before all it holds was sent, in order |
| Activity.LastActiveIsLastSeen | internal/engine/worker.go:118-120 | the time stamp of a tabled flow is the time of its connection's last packet or touch, whatever failed in between |
| Activity.ReapedIffIdle | internal/engine/worker.go:670-693 | after a successful visit by garbage collection a flow is in the table if and only if it was there and the worker has processed a packet or touch of its connection within the idle time: active connections are never evicted, as far as their touches reached the worker (engine.go:213-215) |
| Activity.CollectingOnlyIf | internal/engine/worker.go:145-245 | after a successful delivery a flow is collecting only if the packet gave it reason to: payload that fits, no SYN, RST or FIN, in number and time (the time runs from `Beginnings.FlowKeepsItsStart`) |
| Activity.ClosedIsForgotten | internal/engine/worker.go:148-161 | a bare RST or FIN leaves no flow behind, in whatever phase it was |
| Beginnings.FlowKeepsItsStart | internal/engine/worker.go:273-285 | in every run, whatever fails: the start of a flow's collecting, its first sequence number, first payload length and buffer size are those of the delivery that began its present life |
| Beginnings.LateIsNotCollecting | internal/engine/worker.go:196-198 | a packet with payload that comes more than the collect timeout after that delivery never leaves its flow collecting |
| Verdicts.CollectingIff | internal/engine/worker.go:136-456 | for every delivery of every run without errors, under any reloads, in which no call fails: exactly when its connection is collecting afterwards, in terms of the packet, the bytes, the counters, the number of held packets and the time of the first one |
| Verdicts.InjectedIff | internal/engine/worker.go:136-456 | exactly when it is injected: the window has become complete and is longer than its first piece |
| Verdicts.GoneIff | internal/engine/worker.go:136-456 | exactly when it has no entry in the table |
| Runs.BudgetsHold | internal/engine/worker.go:181-214 | under a fixed configuration and without errors, held bytes, buffered bytes, number of flows and held packets stay within their caps over every run |
| Caps.CapsHoldWhateverFails | internal/engine/worker.go:252-264 | under a fixed configuration held bytes and the number of flows stay within their caps over every run, whatever fails |
| Caps.HeldCapMidStep | internal/engine/worker.go:181-192 | every value that the held-bytes counter has during any step of such a run, while packets are added or given back one by one, is at least zero and within the cap |
| Runs.CollectingMeansIncomplete | internal/engine/worker.go:336-389 | at rest a flow collecting in tls-hello mode has an incomplete record, and in immediate mode none is collecting |
| Injection.LastHeldIsTail | internal/engine/worker.go:435-439 | where the trimmed branch is taken, the last held packet starts where the prefix ended before it and ends where it ends now |
| Injection.TrimmedIsRemainder | internal/engine/worker.go:523-558 | the trimmed branch emits the remainder exactly once, from the last held packet, and so the bytes the chunked branch would send |
| Injection.InjectionIsExact | internal/engine/worker.go:391-455 | for every completed injection of a run without errors, under any reloads: it carries exactly the contiguous prefix from BaseSeq on, with consecutive ids, right lengths, verifying checksums, and PSH and FIN on the last packet only, unless the window lay inside the earlier prefix with everything in order; then it carries the window and after it, one by one under their own headers, what the held packets have beyond it |
| Injection.OneConfigurationIsExact | internal/engine/worker.go:391-455 | under one configuration it is always exactly the contiguous prefix |
| Exactness.LastOnlyIff | internal/engine/worker.go:418-446 | PSH and FIN are on the last packet of an injection only, under any reloads, if and only if it is regular, or of the held packets that reach beyond the window all but the last have neither flag (docs/DESIGN_LINUX.md:68) |
| Exactness.ExactlyThePrefixIff | internal/engine/worker.go:391-455 | an injection carries exactly the contiguous prefix, in order and without gap or repetition, if and only if it is regular or the held packets that reach beyond the window follow one another; otherwise, and only then, some sequence position is sent twice |
| Scenarios.ReloadedInjectionRepeats | internal/engine/worker.go:516-558 | a run with one reload in which an injection sends a retransmitted packet twice and sets PSH before its last packet (docs/DESIGN_LINUX.md:68) |
| Scenarios.IrregularButExact | internal/engine/worker.go:516-558 | a run with one reload whose injection is irregular and yet carries exactly the prefix, with PSH on the last packet only |
| Injection.FirstPieceIsSplitOff | internal/engine/worker.go:418-433 | the window never travels whole: the first packet carries exactly the configured first piece and more packets follow |
| Sizes.InjectionSizes | internal/engine/worker.go:362-446 | every completed injection, under any reloads: the window is the one the mode and the bytes ask for, the newest packet is the template and the oldest one's sequence number the base, the first packet carries the configured first piece as far as allowed, and every other one but the last the largest payload allowed; likewise beyond the window when something was out of order |
| Receiver.InjectedPacketsAreGood | internal/engine/worker.go:458-558 | every packet of every completed injection passes the receiver's checks and has the header of a held packet, options, time to live and window included, but for lengths, identification, checksums, sequence number and flags |
| Completeness.DroppedByteIff | internal/engine/worker.go:400-448 | in every run without errors, under any reloads: each dropped packet was dropped in an exchange whose plan carries each of its bytes if and only if that byte did not lie past a gap |
| Completeness.HeldByteIff | internal/engine/worker.go:400-448 | the same for each packet that the flow of one injection held |
| Scenarios.AByteIsLost | internal/engine/worker.go:400-448 | a run under one configuration and without errors in which a captured byte is dropped and never sent |
| Completeness.EveryByteIsSentHeldOrPastAGap | internal/engine/worker.go:400-448 | position by position: without errors each captured sequence position has been sent for its connection, is held, or lay past a gap at an injection of it |
| Completeness.LostOnlyOutOfOrder | internal/engine/worker.go:400-448 | at an injection a position lies past a gap if and only if it lies beyond the contiguous prefix and some held packet has it, and then some held fragment had arrived out of order |
| Completeness.SplitIsAFunctionOfTheStream | internal/engine/worker.go:362-389 | the split window is the first 5 + record length bytes of the stream, wherever the packet boundaries were |
| Completeness.SplitIsIndependentOfFragmentation | internal/engine/worker.go:362-389 | two fragmentations of one stream that both reach injection split the same window with the same bytes |
| WorkerObjects.FlowState.constructor | internal/flow/flow.go:68-78 | a new table entry is in the new state with nothing held |
| Worker.Worker.constructor | internal/engine/worker.go:51-57 | a new worker stands for the empty table |
| Worker.Worker.StartFlow | internal/engine/worker.go:273-285 | a new flow starts collecting at its first packet's sequence number, with an empty buffer |
| Worker.Worker.ClearCollectingState | internal/engine/worker.go:646-668 | the counters after giving back a flow's bytes, clamped as the code does |
| Worker.Worker.FailOpen | internal/engine/worker.go:626-635 | the originals go out in order up to the first failure; only when all did is the flow cleared |
| Worker.Worker.DropHeld | internal/engine/worker.go:637-644 | the held packets are dropped in order up to the first failure |
| Worker.Worker.SendSegments | internal/engine/worker.go:458-481 | the loop sends the run that `RunCarries` is about, up to the first failure |
| Worker.Worker.ReinjectTrimmed | internal/engine/worker.go:523-558 | the loop sends the trimmed packets that `TrimmedIsRemainder` is about, up to the first failure |
| Worker.Worker.SendPlan | internal/engine/worker.go:423-446 | window first, remainder next, by the branch that the history flags choose |
| Worker.Worker.InjectSegments | internal/engine/worker.go:430-455 | a failed send falls back to the originals, a failed drop is reported, otherwise the flow is injected |
| Worker.Worker.InjectWindow | internal/engine/worker.go:391-456 | the guards of an injection refine the machine's decision |
| Worker.Worker.TrySplitImmediate | internal/engine/worker.go:348-360 | refines the machine's decision in immediate mode |
| Worker.Worker.TrySplitTLSHello | internal/engine/worker.go:362-389 | refines the machine's decision in tls-hello mode |
| Worker.Worker.AfterPush | internal/engine/worker.go:209-244 | refusal, budget, SYN, RST, FIN and mode are considered in the code's order |
| Worker.Worker.PushPayload | internal/engine/worker.go:202-208 | the buffer takes the payload and the counter changes by what the buffer gained |
| Worker.Worker.PushAndDecide | internal/engine/worker.go:202-244 | both together refine the machine |
| Worker.Worker.TakeIn | internal/engine/worker.go:191-244 | the hold, its packet limit and its time limit, for existing flows and (worker.go:297-345) new ones |
| Worker.Worker.CloseOut | internal/engine/worker.go:148-161 | a bare FIN or RST releases what is held, is sent itself, and removes the flow |
| Worker.Worker.CollectMore | internal/engine/worker.go:177-244 | a further packet of a collecting flow refines the machine |
| Worker.Worker.HandleExisting | internal/engine/worker.go:145-245 | a packet of a known flow refines the machine |
| Worker.Worker.CollectNew | internal/engine/worker.go:273-345 | the first packet of a new flow refines the machine |
| Worker.Worker.HandleNew | internal/engine/worker.go:247-345 | the guards in front of a new flow refine the machine |
| Worker.Worker.HandlePacket | internal/engine/worker.go:136-346 | table, counters, flow objects, buffers, adapter calls and result are those of the machine's step, for every state, packet, time and three configurations |
| Worker.Worker.TouchFlow | internal/engine/worker.go:111-120 | a touch keeps a known flow alive and changes nothing else |
| Worker.Worker.ReapIdle | internal/engine/worker.go:678-691 | an idle flow is released and removed; it stays if it could not be released |
| Worker.Worker.Gc | internal/engine/worker.go:670-693 | a collection pass in any order of the table is a sequence of such steps and reports the first flow that could not be released |
| Worker.PassIsARun | internal/engine/worker.go:670-693 | so a collection pass is a run, and every theorem about runs covers it |
| ShutdownDrain.StoppedWorker.constructor | internal/engine/worker.go:695-702 | the limit is the configured one if positive and 200000 otherwise |
| ShutdownDrain.StoppedWorker.Reinject | internal/engine/worker.go:703-718 | when a packet is offered and which answer gives which result; at most the limit is ever sent, and a limit error comes only with the limit used up |
| ShutdownDrain.StoppedWorker.ReleaseFlow | internal/engine/worker.go:731-742 | one flow's packets are offered in order, all of them also after failed sends unless limit or deadline stops it, and then a prefix of them |
| ShutdownDrain.StoppedWorker.ReleaseHeld | internal/engine/worker.go:720-750 | likewise every held packet, flow by flow |
| ShutdownDrain.StoppedWorker.DrainQueue | internal/engine/worker.go:751-787 | likewise the queue from its front until it is empty, also after failed sends; how far it gets and why it stops is decided by the answers of the environment, and the packets not offered are still queued, but for one if and only if one goes nowhere |
| ShutdownDrain.OneIsTaken | internal/engine/worker.go:751-787 | an input for which that packet is neither sent nor queued |
| ShutdownDrain.StoppedWorker.ShutdownFailOpen | internal/engine/worker.go:695-788 | held and then queued packets are offered in order, each at most once; which are offered, whether the end is reached, whether the result is nil, and whether and which packet is lost, is each said by an if-and-only-if on the answers of the environment; nil means that all were sent; where nothing is refused as many as the limit allows are sent, and nil comes if and only if fewer than the limit were waiting |
| ShutdownDrain.HeldThrough | internal/engine/worker.go:720-750 | phase one reaches its end if and only if the last held packet is offered and no answer was a context error |
| ShutdownDrain.TakenIff | internal/engine/worker.go:751-787 | queued packet m is taken if and only if all before it get through, the sent ones leave room under the limit, and the context is not over at the first look; it is offered if and only if the context is not over at the second look either |
| ShutdownDrain.NowhereIff | internal/engine/worker.go:751-787 | a packet is taken without being offered if and only if the context ends between the two looks at one that is taken; there is at most one, and exactly those before it were offered |
| ShutdownDrain.ReachedIff | internal/engine/worker.go:720-787 | which of the held and queued packets a whole shutdown offers |
| ShutdownDrain.LostIff | internal/engine/worker.go:695-788 | a whole shutdown loses a packet if and only if phase one reaches its end and a queued packet goes nowhere; and it comes to its end if and only if nothing stops it |
| ShutdownDrain.LimitIsMet | internal/engine/worker.go:755-760 | an input on which everything is sent and the limit is reported |
| ShutdownDrain.DrainKeepsFlowOrder | internal/engine/worker.go:720-787 | in whatever order the table is visited, each connection's packets go out held first, then queued, in their own order |
| NfqueueFlush.InvariantHolds | internal/adapter/nfqueue_linux.go:140-233 | what every interleaving keeps: the counter is the number of running callbacks, no packet is in the ledger twice, and past the wait no callback can still enqueue |
| NfqueueFlush.QuietMeansGone | internal/adapter/nfqueue_linux.go:155-164 | a counter of zero means that every callback that began is over |
| NfqueueFlush.NilIsFinal | internal/adapter/nfqueue_linux.go:166-182 | once Flush has returned nil nothing undoes it |
| NfqueueFlush.FlushLeavesNothing | internal/adapter/nfqueue_linux.go:140-233 | in every interleaving, from the moment Flush has returned nil: the buffer is empty, all its accepts succeeded, and each packet was exactly once handed to Recv, accepted by Flush, accepted in its callback, or is in a callback that can only accept it |
| NfqueueFlush.BufferIsFifo | internal/adapter/nfqueue_linux.go:166-182 | packets leave the buffer in the order in which they entered it, whoever takes them |
| NfqueueFlush.DrainOnlyShrinks | internal/adapter/nfqueue_linux.go:166-182 | while Flush drains nothing can enter the buffer, so the drain ends |
| NfqueueFlush.OpenMeansQueued | internal/adapter/nfqueue_linux.go:204-230 | while nothing shuts down and the buffer never holds 1024 packets, no packet goes past the engine |
| EngineProtocol.InvariantHolds | internal/engine/engine.go:57-237 | all parts of the protocol's invariant hold after every interleaving |
| EngineProtocol.ShutdownIsOrdered | internal/engine/engine.go:111-152 | no send on and no second close of a closed channel; channels are closed only after the receive loop returned; the adapter is flushed only after the receive loop and all workers have ended; all sends precede the adapter's flush, which precedes its close |
| EngineProtocol.AtMostOneIsLeft | internal/engine/worker.go:63-75 | at most one packet enters any queue after the context's end; where a worker drained to the end its queue holds a packet if and only if it was put there after that, and only one queue does |
| EngineProtocol.OneCanBeLeft | internal/engine/worker.go:63-75 | a run in which that packet stays in its queue for ever although Run reports success |
| EngineProtocol.CaptureOrderIsKept | internal/engine/engine.go:170-237 | every packet received is dealt with in turn; each worker is given only packets routed to it, of its own connections, in order of capture; such a packet is passed on instead only once the engine is cancelled; none is lost where the loop ends by cancellation |
| EngineProtocol.RunReportsFailures | internal/engine/engine.go:111-168 | Run returns nil if and only if no worker reported a failure, the receive loop ended by cancellation, and flushing the adapter succeeded or ran out of time |
| Reports.RunIsNilIff | internal/engine/engine.go:57-168 | in every interleaving Run returns nil if and only if no worker's loop ended with an error other than cancellation, no drain with one other than the deadline or limit of an orderly stop, the receive loop ended by cancellation, and the adapter's flush succeeded or ran out of time |
| Reports.QueuesFit | internal/engine/worker.go:51-75 | no queue ever holds more than its capacity |
| Routing.RouteIff | internal/engine/engine.go:170-225 | to a worker go exactly the TCP packets to port 443 with payload, FIN or RST, told from their bytes; those without touch their flow; everything else is sent on |
| Routing.SameConnectionIff | internal/flow/flow.go:18-26 | two packets are of one connection if and only if the bytes of their addresses and ports agree |
| Routing.HashesTheWire | internal/flow/sharder.go:21-29 | hashed are the addresses, ports and protocol as they stand in the packet |
| Routing.FnvVectors | internal/flow/sharder.go:21-30 | the hash has the published values of 64-bit FNV-1a |
| Routing.HomeIsResidue | internal/flow/sharder.go:30 | the worker is the residue of the hash |
| Teardown.NothingIsLeftBehind | internal/engine/engine.go:111-152 | engine and NFQUEUE adapter interleaved as one: once Run has returned with a flush that reported nothing, the buffer is empty and each packet of the kernel was exactly once handed to the receive loop, accepted by Flush, accepted in its callback, or is in a callback that can only accept it |
| Sharding.FnvStreams | internal/flow/sharder.go:21-30 | hashing in pieces is hashing the whole key |
| Sharding.Index | internal/flow/sharder.go:9-32 | three writes and a reduction give the key's home, which is below the worker count even if that was configured as zero |
| Sharding.TabledWasDelivered | internal/engine/worker.go:247-285 | a flow is in a table only if a packet of its connection was delivered to that worker |
| Sharding.FlowsLiveWhereRouted | internal/engine/engine.go:194-225 | over all runs of all workers, however connections are routed: a connection is tabled only at the worker it is routed to, and no other worker ever saw a packet of it |
| Sharding.FlowsLiveAtHome | internal/engine/engine.go:194-225 | with the program's hash: a key appears only in the table of the worker its hash selects |
| Composition.EngineFlowsLiveAtHome | internal/engine/engine.go:194-225 | the same with the routing taken from the engine protocol: in every reachable state, whatever the workers made of the packets they took |
| Composition.EngineFeedsFleet | internal/engine/engine.go:194-225 | what the workers took from their queues is routed by the hash |
| Composition.DrainedRunRetiresAll | internal/engine/worker.go:695-788 | a run without errors followed by a drain that sent everything has retired every packet of a connection exactly once, those with payload in order of arrival |
| Composition.StopAfter | internal/engine/worker.go:695-788 | the same said of the drain method itself |
| Composition.CapturedIsRetired | internal/engine/engine.go:57-237 | from capture to the end: every packet that the receive loop enqueued has been retired exactly once, those with payload in order of capture, but for the one that may have been put into the queue after the drain |
| Quoting.QuoteArg | cmd/gov-pass-tray/main_windows.go:434-468 | the loop over the argument writes the quoted text that `QuoteParses` is about |
| Quoting.QuoteArgs | cmd/gov-pass-tray/main_windows.go:423-432 | the loop over the arguments writes the command line that `QuotingRoundTrip` is about |
| Quoting.QuoteParses | cmd/gov-pass-tray/main_windows.go:434-468 | a quoted argument, followed by a blank or the end, reads back as the argument |
| Quoting.QuotingRoundTrip | cmd/gov-pass-tray/main_windows.go:423-468 | for every list of arguments, with any mix of blanks, quotes and runs of backslashes, the Microsoft C parsing rule gives back exactly the list, under both readings of doubled quotes |
| Quoting.PlainIff | cmd/gov-pass-tray/main_windows.go:434-442 | an argument is written as it is if and only if it is not empty and has no blank, tab or quote |

## Left out

- Runs.BudgetsHold: for one configuration, as a reload may lower a cap below what is in use, and without reported errors, as a flow that could not be released stays over the caps on buffered bytes and held packets.
- Activity.ReapedIffIdle: a touch that was dropped at a full channel (worker.go:77-82), or is still queued when garbage collection comes, is not a touch of the run.
- Composition.CapturedIsRetired: it is about workers whose run loop met no error; after an error the remaining packets are the drain's, which is not joined to a history.
- EngineProtocol.AtMostOneIsLeft: the drain is one step per packet here; its limit and deadline are choices of the environment, and `ShutdownDrain` has the details.
- Byte slices of the reassembly buffer are values; the sharing of backing arrays between appended slices is not modelled.
- The counters heldBytes and reassemblyBytes are unbounded integers; int64 overflow is out of reach.
- The unreachable guards for nil configuration, nil flow state and nil buffer, and the second held-bytes check for a new flow (worker.go:287-296), which repeats worker.go:258-264.
- The copy of the collecting code for new flows (worker.go:297-345) is one method, `TakeIn`, with a flag for the one place where the copies differ.
- The flow states SplitReady and Closed (flow.go:33 and 36), which no code assigns.
- The order in which Go visits a map is a parameter of `Gc` and of the drain.
- Checksum failures of adapters other than NFQUEUE: they would count as failed sends.
- Raw sockets, netlink, WinDivert and pf divert: an adapter is its sequence of calls with success or failure.
- Engine.Reload's refusals, configuration parsing and the defaults in newWorker: range checks. Reload's effect is the three configurations of a delivery.
- The touch channel's capacity: a lost touch is a touch that is not in the run. Its closing is part of `EngineProtocol`.
- Wall-clock liveness: timers and deadlines may fire at any moment or never.
- The texts of joined errors: an error is the set of its causes.
- The Windows parsing rule of the program name, which the quoted text does not contain.
- nft, iptables and driver helpers, installation, services, tray user interface and icons.
