# FluidGateway in Dafny

FluidGateway reads a stream of CPU, GPU and memory operations, drops the
redundant ones, answers engines over the binary FluidLink v2 protocol and turns
the remaining work into frame budgets. This project models the parts of it that
carry the hard promises and proves those promises for every input, every run or
every interleaving.

`dafny verify dfyconfig.toml` checks all of it.

## The four components

**The redundancy optimizer** (`Runtime`, `RuntimeMeaning`,
`RuntimeDependencies`, `RuntimeDangling`, `RuntimeHistory`, `RuntimeStandIns`,
`Control`). `Runtime` models the decision rules, the caches and the worklist
that invalidates cached transfers; the state object and the whole-list driver
are a class and a loop, proved equal to functions on values. `RuntimeMeaning`
says what operations do to memory. Resources joined by chains of shared alias
names in one memory layer are views of one datum, a copy or upload overwrites a
size-long prefix of the target's datum, compute, draw and writes to unknown
targets replace contents by an arbitrary function of the store, and an
allocation may keep or replace its datum. Under that reading the optimizer is a
transformation that preserves meaning: a run of the kept operations is a run of
the whole list, and which runs of the whole list are runs of the kept operations
is known exactly. `RuntimeDependencies` reads `depends_on` as a graph and proves
that rewriting loses no order, adds none and leaves nothing waiting for a
removed operation; `RuntimeDangling` says what remains true of lists whose
dependencies look ahead. `RuntimeHistory` and `RuntimeStandIns` tell, from the
submitted list alone and without the caches, exactly which operations are
dropped and what stands in for them.

**FluidLink v2** (`Bytes`, `Utf8`, `FrameCodec`, `StreamReader`, `PayloadCodec`,
`OperationEvents`, `PayloadObjects`, `DecisionCodec`, `WireLimits`,
`WireVectors`, `Session`, `SessionSafety`, `SessionResponses`, `SessionAnswers`,
`BatchHandler`, `OperationHandler`, `WireOperations`). Frames and payloads are
proved to be two-sided inverses of their decoders, to be writable exactly within
their limits, and to give the published vectors byte for byte. The stream reader
is proved against every way a transport can portion its bytes. The session is a
state machine whose handler may answer or fail in any way its whole history
allows; `SessionResponses` says exactly which requests of a run go unanswered
and `SessionAnswers` what a client reads in every response. `BatchHandler` and
`OperationHandler` make the adapter session of `Ledger` that handler and prove
what the client is sent for batches and for single operations.

**Connection slots and the deadline reader** (`ConnectionSlots`, `SlotProgress`,
`DeadlineReader`). The semaphore, the locked set and the counter are updated in
separate atomic steps by an accepting thread and one thread per connection; the
proofs range over every interleaving, including an early and a final release of
the same connection. The reader is a class in front of a socket that delivers
arbitrary portions at arbitrary times.

**The budget loop** (`Windowing`, `BudgetEnvelope`, `BudgetArbiter`,
`PreFrameStaging`, `PlannedWork`, `DispatchPlans`, `RuntimeCalibration`,
`BudgetLoop`, `Manager`, `ControlPackets`, `ControlStates`, `GatewayTicks`,
`ControlLoop`, `LoopOutcomes`, `Ledger`, `LedgerHistory`, `Scheduler`,
`ScheduleFacts`, `ScheduleOutcomes`, `Adapter`, `Stats`; `Numbers` and
`Sequences` hold rounding, sums and sorting). Every stage from routed work to
feedback is modelled on exact real costs with `round(x, 4)` as half-even
rounding. The main results span stages: admission at the arbiter bounds what is
planned three stages later, two different routes report the same memory relief,
and the ledger a session keeps is exactly what the scheduler lays out.
`Wrappers` holds the option and result types of all four.

## Facts about the code worth knowing

- A request goes unanswered in exactly one case: it passes every check and makes
  the handler raise a message that holds a lone surrogate and is short enough not
  to be cut. `_truncate_utf8` returns it unchanged and it then fails to encode
  (`SessionResponses.UnansweredExactlyWhen`; a run from the handshake that gets
  there is `SessionResponses.LoneSurrogateGoesUnanswered`).
- The arbiter keys its counters by `command.frame or -1`, so frame 0, frame -1
  and frameless work share one counter. Bounds still hold, but a frame's own
  pre-frame work is turned away exactly when the foreign work charged to its
  counter before it exceeds the frame's own pre-frame work still to come and its
  overrun together (`PreFrameStaging.OwnPreFrameWorkIsStagedExactlyWhen`,
  `PreFrameStaging.SharedAccountDefersOwnWork`).
- A dependency on an operation that is named before it is submitted and then
  dropped is left dangling, named directly or through dropped operations, and no
  other dependency is; the order theorems therefore ask that each dependency
  names an earlier or a never-submitted operation
  (`RuntimeDangling.WaitsForExactly`,
  `RuntimeDangling.ForwardReferenceCanDangle`).
- A reused scratch buffer keeps its contents where a fresh allocation might have
  cleared them. That is the only thing the full list can do and the kept one
  cannot (`RuntimeMeaning.KeptRunsExactly`, `RuntimeMeaning.ReuseLosesARun`).
- Ending a begun frame with an event that carries no index leaves the frame
  looking open for good. A frame can begin exactly when none is open and that
  never happened to it (`Ledger.BeginIsAcceptedExactlyWhen`,
  `Ledger.EndWithoutIndexBlocksTheFrame`).
- Near-budget memory layers carry no pressure, so only over-budget layers
  contribute relief on either route.

## Model

| member | source | states |
|---|---|---|
| Runtime.ConnectedViewsShareComponent | fluidgateway/runtime.py:128-141 | Chains of shared aliases within one memory layer form an equivalence: connected resources have the same component. |
| Runtime.ComponentsMeetOnlyIfEqual | fluidgateway/runtime.py:128-141 | Components partition the table: one lies in another's exactly when both are the same set. |
| Runtime.ComponentWithinClosedSet | fluidgateway/runtime.py:130-141 | Any set that holds a resource and is closed under links holds its whole component, so the worklist's result is the least such set. |
| Runtime.RuntimeOptimizationState.Neighbours | fluidgateway/runtime.py:137-141 | One worklist scan finds exactly the not yet affected resources of the same layer that share an alias. |
| Runtime.RuntimeOptimizationState.InvalidateResource | fluidgateway/runtime.py:128-144 | The worklist terminates and leaves exactly the cached transfers that neither fill nor read the written component; an unknown resource clears the cache. |
| Runtime.RuntimeOptimizationState.ReleaseResource | fluidgateway/runtime.py:146-151 | A release invalidates the component, forgets the buffers of that target and removes the resource, reporting what it was. |
| Runtime.RuntimeOptimizationState.ProcessOperation | fluidgateway/runtime.py:153-186 | The object's new state and answer are those of the step function; a duplicate id is refused and changes nothing. |
| Runtime.Dedup | fluidgateway/runtime.py:156-159 | De-duplication keeps every id and repeats none. |
| Runtime.DedupKeepsOrder | fluidgateway/runtime.py:156-159 | What is kept is listed in the order of first occurrences. |
| Runtime.ResolveAll | fluidgateway/runtime.py:156-159 | The ids in a resolved dependency list are exactly the replacements of its members. |
| Runtime.ResolutionIsInOrder | fluidgateway/runtime.py:156-159 | A dependency list resolves member by member, in order and with repetitions. |
| Runtime.DroppedCostIsSaved | fluidgateway/runtime.py:254-335 | Whatever rule drops an operation, the saving it reports is the operation's whole cost. |
| Runtime.OptimizeManifest | fluidgateway/runtime.py:217-243 | The loop over a manifest yields the kept list, the decisions and the state of the step-by-step specification, or its error. |
| Runtime.OptimizeRefusesOnlyDuplicates | fluidgateway/runtime.py:153-155 | A pass is refused if and only if some operation id occurs twice. |
| Runtime.RefusalIsFinal | fluidgateway/runtime.py:153-155 | Once a prefix is refused, the whole list is refused with the same error. |
| Runtime.CostIsConserved | fluidgateway/runtime.py:220-235 | Kept cost plus saved cost equals submitted cost. |
| RuntimeMeaning.DroppedOperationIsIdentity | fluidgateway/runtime.py:254-335 | While the caches describe the store, every operation the rules drop may leave the store unchanged. |
| RuntimeMeaning.DroppedOperationOnlyIdentity | fluidgateway/runtime.py:254-335 | Except for reused allocations, a dropped operation cannot do anything but leave the store unchanged. |
| RuntimeMeaning.SurvivorsHold | fluidgateway/runtime.py:128-144 | After any change to one component, the transfers surviving invalidation still describe the store. |
| RuntimeMeaning.KeptTransfersHold | fluidgateway/runtime.py:175-181 | Keeping an operation re-establishes that every cached transfer's target holds its source's prefix. |
| RuntimeMeaning.KeptRunIsFullRun | fluidgateway/runtime.py:153-335 | Meaning preservation: every run of the kept operations is a run of the full list with the same final contents of every resource. |
| RuntimeMeaning.KeptRunsExactly | fluidgateway/runtime.py:153-335 | For every accepted list, the runs of the kept operations are exactly the runs of the full list in which each reused allocation leaves the store as it is, or, equivalently, in which every dropped operation does. |
| RuntimeMeaning.FullRunIsKeptRun | fluidgateway/runtime.py:153-335 | So when no transient buffer was reused, every run of the full list is a run of the kept operations. |
| RuntimeMeaning.ReuseLosesARun | fluidgateway/runtime.py:322-333 | A scratch buffer that is filled and allocated again may come out cleared from the full list, and never from the kept one. |
| RuntimeDependencies.NoKeptOperationWaitsForARemovedOne | fluidgateway/runtime.py:156-175 | Every dependency of a kept operation is kept or was never submitted. |
| RuntimeDependencies.RewrittenOrderIsExact | fluidgateway/runtime.py:156-175 | Between surviving operations, precedence after rewriting holds if and only if it held in the submitted graph together with the edges to stand-ins. |
| RuntimeDependencies.RequestedOrderSurvives | fluidgateway/runtime.py:156-175 | Every transitive precedence the caller asked for between surviving operations is kept. |
| RuntimeDependencies.RewrittenGraphIsAcyclic | fluidgateway/runtime.py:156-175 | No kept operation precedes itself. |
| RuntimeDependencies.RemovedOutrightMeansNoPredecessor | fluidgateway/runtime.py:171-175 | A dropped operation is recorded as removed outright if and only if nothing kept or external preceded it. |
| RuntimeDependencies.OrphanSyncHadNoPredecessor | fluidgateway/runtime.py:302-311 | In every pass over a well-ordered list, a sync removed as an orphan is recorded as removed outright and no kept or never-submitted operation preceded it. |
| RuntimeDependencies.RecordedOrphansResolveToNothing | fluidgateway/runtime.py:171-175 | At every point of such a pass, whatever is recorded as removed outright has nothing standing in for it. |
| RuntimeDangling.WaitsForExactly | fluidgateway/runtime.py:156-175 | However the list is ordered: of the ids that are not kept, a kept operation depends on exactly those that it names before they are submitted, itself or through a chain of dropped operations, each naming the one before. |
| RuntimeDangling.SomethingDanglesExactlyWhen | fluidgateway/runtime.py:156-175 | A pass leaves some kept operation waiting for a dropped one if and only if some kept operation carries a dropped id in that way. |
| RuntimeDangling.ForwardReferenceDangles | fluidgateway/runtime.py:156-175 | Whatever a kept operation itself names ahead is left dangling once it is dropped. |
| RuntimeDangling.ForwardReferenceCanDangle | fluidgateway/runtime.py:156-175 | A concrete pair where this happens. |
| RuntimeDangling.DanglingWasNamedAhead | fluidgateway/runtime.py:156-175 | So a kept operation waits for a dropped one only if it, or a dropped operation before it, named that one no later than it was submitted. |
| RuntimeDependencies.PassIsConsistent | fluidgateway/runtime.py:153-186 | Over every well-ordered list, the replacement table, the kept list, the caches and the removed set agree with the rewriting traced operation by operation. |
| RuntimeHistory.CachesAreHistory | fluidgateway/runtime.py:175-186 | At every point of a pass the transfer cache holds exactly the kept transfers that no kept write has touched since, neither their source nor their target. |
| RuntimeHistory.ActiveBuffersAreHistory | fluidgateway/runtime.py:175-186 | At every point of a pass the active buffers are exactly the kept allocations whose target was not allocated again since. |
| RuntimeHistory.TransferIsDroppedExactlyWhen | fluidgateway/runtime.py:254-300 | A transfer is dropped if and only if both ends are registered and it copies onto itself, onto a view of the same layer with a common alias, or repeats a standing transfer in source, target, size, frame and queue. |
| RuntimeHistory.RepeatedTransferIsDropped | fluidgateway/runtime.py:284-300 | So a kept transfer that is repeated is never kept again while every kept write in between has a registered target outside the components of both ends, whatever the measured costs. |
| RuntimeHistory.AllocationIsDroppedExactlyWhen | fluidgateway/runtime.py:322-333 | An allocation is dropped if and only if its reason names a transient token and an active allocation has the same target, size and frame. |
| RuntimeHistory.TransientReasonsNameAToken | fluidgateway/runtime.py:421-423 | A reason is transient if and only if one of the four tokens occurs somewhere in it, in whatever case. |
| RuntimeHistory.SyncIsDroppedExactlyWhen | fluidgateway/runtime.py:302-320 | A sync is dropped if and only if it is free and waits for nothing, or waits only for operations that were removed outright before it. |
| RuntimeHistory.WorkIsKept | fluidgateway/runtime.py:254-335 | Compute, draw and present operations are always kept. |
| RuntimeHistory.DecisionsSayWhy | fluidgateway/runtime.py:254-335 | The rule a decision names, the cost it saves and the bytes it saves follow from the operation it is about. |
| RuntimeHistory.DroppedIsReported | fluidgateway/runtime.py:220-235 | Every dropped operation has a decision. |
| RuntimeStandIns.DroppedIsReplacedByExactly | fluidgateway/runtime.py:156-175 | A dropped operation is replaced by exactly what its dependencies lead to and by its stand-in: the standing transfer it repeats, the last standing transfer into the source it aliases, or the active allocation it repeats. |
| RuntimeStandIns.KeptDependsOnExactly | fluidgateway/runtime.py:156-175 | A kept operation depends on exactly what its dependencies lead to, and is otherwise as submitted. |
| RuntimeStandIns.WaitsForTheStandIn | fluidgateway/runtime.py:156-175 | Whoever names a dropped operation afterwards depends on what stands in for it. |
| RuntimeStandIns.RepeatedTransferHasItsOriginal | fluidgateway/runtime.py:284-300 | A repeated transfer is stood in for by a kept transfer with the same source, target, size, frame and queue. |
| RuntimeStandIns.ReusedAllocationHasItsOriginal | fluidgateway/runtime.py:322-333 | A reused allocation is stood in for by a kept one with the same target, size and frame. |
| RuntimeStandIns.AugmentedEdges | fluidgateway/runtime.py:156-175 | The edges that the exact order theorem adds to the submitted graph are exactly those to the stand-ins. |
| Control.FluidGatewayController.SubmitOperation | fluidgateway/control.py:65-98 | One submission extends the executed list or the decisions as one optimizer step does, and the incremental driver stays equal to one pass over everything submitted. |
| Control.FluidGatewayController.RegisterResource | fluidgateway/control.py:41-63 | A duplicate id is refused and changes nothing; a table completed before the first operation keeps the driver in step with one pass. |
| Control.FluidGatewayController.ReleaseResource | fluidgateway/control.py:121-122 | A release reports the resource, and changes the table, the transfer cache and the buffers only. |
| Control.ReleaseForgetsTheResource | fluidgateway/runtime.py:146-151 | After a release no cached transfer fills or reads the released resource. |
| Control.FirstSubmissionSettles | fluidgateway/runtime.py:153-186 | Processing an operation once makes its verdict stable, unless it was kept and is a repeatable transfer or allocation. |
| Control.BatchSettles | fluidgateway/runtime.py:153-186 | Submitting one operation under many ids is answered by a constant vector or by one execute followed by identical removals. |
| Bytes.IntegerRoundTrip | fluidgateway/fluidlink_v2.py:215-229 | Little-endian fields read back every value in range. |
| Bytes.BytesRoundTrip | fluidgateway/fluidlink_v2.py:305-315 | Every byte string is the encoding of the integer it reads as. |
| WireVectors.LittleEndianAt | fluidgateway/fluidlink_v2.py:215-229 | Byte i of an integer field is the i-th digit of the value to the base 256, lowest first. |
| Utf8.TextRoundTrip | fluidgateway/fluidlink_v2.py:347-367 | UTF-8 (section 3 of RFC 3629) decodes every surrogate-free text from its encoding. |
| Utf8.TextIsCanonical | fluidgateway/fluidlink_v2.py:323-338 | Strict decoding accepts only the one encoding of each text: overlong, surrogate and truncated forms are refused. |
| WireVectors.Utf8Table | fluidgateway/fluidlink_v2.py:347-367 | Each code point is written as the table of section 3 of RFC 3629 says. |
| Utf8.CutKeepsLongestPrefix | fluidgateway/fluidlink_v2.py:1869-1874 | Cutting an encoding at a byte limit and dropping the broken tail leaves the longest whole-code-point prefix that fits. |
| Utf8.TruncationFits | fluidgateway/fluidlink_v2.py:1869-1874 | A truncated message is non-blank, encodable and within the limit if and only if it is not a short text with a lone surrogate. |
| WireLimits.StripTakesTheBlanks | fluidgateway/fluidlink_v2.py:1869-1874 | Stripping removes the blanks at both ends, all of them and nothing else. |
| WireLimits.TruncationSays | fluidgateway/fluidlink_v2.py:1869-1874 | A blank message becomes the fixed one, and a short encodable one is only stripped. |
| FrameCodec.HeaderLayout | fluidgateway/fluidlink_v2.py:370-387 | Each header field lies at its documented offset of the 56-byte little-endian header. |
| FrameCodec.DecodeOfEncode | fluidgateway/fluidlink_v2.py:370-458 | Decoding the encoding of a valid frame gives the frame. |
| FrameCodec.EncodeOfDecode | fluidgateway/fluidlink_v2.py:390-458 | Every accepted byte string decodes to a valid frame that re-encodes to the same bytes. |
| FrameCodec.DecodedFramesAreExactlyTheValidOnes | fluidgateway/fluidlink_v2.py:493-560 | A frame passes validation if and only if some byte string decodes to it. |
| WireLimits.AcceptedExactlyWhen | fluidgateway/fluidlink_v2.py:390-560 | A byte string is accepted if and only if it has a sound header, byte by byte, and as many bytes after it as the header announces, at most 65535. |
| WireVectors.GoodbyeResponse | contracts/fluidlink-v2.golden.json:87-91 | The goodbye response of the published vectors, all 56 bytes. |
| StreamReader.ReadExact | fluidgateway/fluidlink.py:355-374 | However the transport portions its bytes, exactly the next bytes are consumed, end of stream is told from truncation, and the rest stays. |
| StreamReader.ReadFrame | fluidgateway/fluidlink_v2.py:461-490 | Reading off the transport, with or without bytes read ahead, equals reading off the remaining byte string. |
| StreamReader.ReadsExactlyOneFrame | fluidgateway/fluidlink_v2.py:461-490 | With any number of header bytes from four on already read, one frame is returned and exactly its bytes are consumed. |
| StreamReader.ReadFrameConsumesItsEncoding | fluidgateway/fluidlink_v2.py:461-490 | Whatever was read, the bytes consumed are the encoding of the frame returned. |
| StreamReader.ConcatenationReadsBack | fluidgateway/fluidlink_v2.py:461-490 | Reading a concatenation of encoded frames yields exactly those frames and then end of stream. |
| StreamReader.OnlyConcatenationsAreRead | fluidgateway/fluidlink_v2.py:461-490 | A stream is read to the end as a list of frames if and only if it is the concatenation of their encodings. |
| StreamReader.CutStreamIsAnError | fluidgateway/fluidlink_v2.py:461-490 | A stream cut inside any frame is an error. |
| StreamReader.CutFrameIsAnError | fluidgateway/fluidlink.py:355-374 | A single frame cut anywhere is reported as truncated. |
| PayloadCodec.TextParsesBack | fluidgateway/fluidlink_v2.py:243-267 | A written bounded text field reads back, whatever follows it. |
| PayloadCodec.TakeText | fluidgateway/fluidlink_v2.py:317-338 | A text field that is read is exactly the field that would be written for it. |
| PayloadCodec.BatchParsesBack | fluidgateway/fluidlink_v2.py:788-887 | Every operation batch that can be encoded decodes to itself. |
| PayloadCodec.BatchIsCanonical | fluidgateway/fluidlink_v2.py:841-887 | Every accepted batch payload re-encodes to the same bytes, presence mask included. |
| PayloadCodec.BatchesAlwaysFit | fluidgateway/fluidlink_v2.py:276-283 | No batch that can be encoded exceeds 9328 bytes, so the payload limit never refuses one. |
| WireLimits.BatchIsSentExactlyWhen | fluidgateway/fluidlink_v2.py:788-838 | A batch can be written if and only if its id is not zero, its count is 1 to 256, its texts are encodable, not blank and within their limits, and its numbers fit their fields. |
| WireVectors.OperationBatchRequest | contracts/fluidlink-v2-batch.golden.json:17-21 | The payload of the published batch request, byte for byte. |
| OperationEvents.EventParsesBack | fluidgateway/fluidlink_v2.py:1218-1300 | Every operation event that can be encoded decodes to itself. |
| OperationEvents.EventIsCanonical | fluidgateway/fluidlink_v2.py:1269-1300 | Every accepted operation event re-encodes to the same bytes. |
| OperationEvents.EventsAlwaysFit | fluidgateway/fluidlink_v2.py:276-283 | No operation event that can be encoded exceeds 9568 bytes. |
| WireLimits.OperationIsSentExactlyWhen | fluidgateway/fluidlink_v2.py:1218-1266 | An operation event can be written if and only if its id and fields are within their limits. |
| WireVectors.OperationRequest | contracts/fluidlink-v2.golden.json:32-36 | The payload of the published operation request, byte for byte. |
| WireVectors.Registry | contracts/fluidlink-v2.contract.json:59-112 | Operation types, queues, decisions and errors have their registered numbers. |
| WireVectors.RegisteredBits | contracts/fluidlink-v2.contract.json:70-98 | Presence, decision and capability flags have their registered bits. |
| PayloadObjects.PayloadWriter.BoundedText | fluidgateway/fluidlink_v2.py:243-267 | A text is appended as its length and encoding, or refused with nothing appended. |
| PayloadObjects.PayloadReader.BoundedText | fluidgateway/fluidlink_v2.py:323-338 | The reader consumes exactly one text field or reports it invalid. |
| PayloadObjects.EncodeOperationBatch | fluidgateway/fluidlink_v2.py:788-838 | Writing field by field into the growing buffer gives the batch encoding, or its error. |
| PayloadObjects.DecodeOperationBatch | fluidgateway/fluidlink_v2.py:841-887 | Reading field by field off the moving offset gives the batch decoding, trailing bytes refused. |
| PayloadObjects.EncodeOperation | fluidgateway/fluidlink_v2.py:1218-1266 | Writing an operation event field by field gives its encoding, or its error. |
| PayloadObjects.DecodeOperation | fluidgateway/fluidlink_v2.py:1269-1300 | Reading an operation event field by field gives its decoding. |
| PayloadObjects.EncodeOperationBatchDecision | fluidgateway/fluidlink_v2.py:890-911 | The loop over entries writes the vector encoding, or is refused exactly when it has none. |
| PayloadObjects.DecodeOperationBatchDecision | fluidgateway/fluidlink_v2.py:914-926 | The loop over entries reads the vector decoding. |
| DecisionCodec.DecisionParsesBack | fluidgateway/fluidlink_v2.py:752-785 | A runtime decision takes 17 bytes and reads back. |
| DecisionCodec.TakeDecision | fluidgateway/fluidlink_v2.py:766-785 | A decision that is read is exactly what would be written for it. |
| DecisionCodec.VectorParsesBack | fluidgateway/fluidlink_v2.py:890-926 | Every decision vector that can be encoded decodes to itself. |
| DecisionCodec.VectorIsCanonical | fluidgateway/fluidlink_v2.py:914-926 | Every accepted vector payload re-encodes to the same bytes, with the agreement of opcode and executed flag. |
| DecisionCodec.VectorsAlwaysFit | fluidgateway/fluidlink_v2.py:890-911 | A vector takes 18 bytes and 18 more per entry, so 256 entries never exceed the limit. |
| WireLimits.VectorIsSentExactlyWhen | fluidgateway/fluidlink_v2.py:890-911 | A vector can be written if and only if its id is not zero, it has 1 to 256 entries, savings fit 64 bits, and each entry says execute exactly when it executed. |
| WireVectors.DecisionResponses | contracts/fluidlink-v2.golden.json:37-51 | The published decision payloads, byte for byte. |
| WireVectors.OperationBatchDecisionResponse | contracts/fluidlink-v2-batch.golden.json:22-26 | The published decision vector, byte for byte. |
| DecisionCodec.MaskOfCapabilities | fluidgateway/fluidlink_v2.py:1685-1704 | Every mask over the known bits is the mask of the set it decodes to. |
| DecisionCodec.CapabilitiesOfMask | fluidgateway/fluidlink_v2.py:1685-1704 | Every capability set is the set decoded from its mask. |
| DecisionCodec.HelloParsesBack | fluidgateway/fluidlink_v2.py:616-651 | Every hello that can be encoded decodes to itself. |
| DecisionCodec.HelloIsCanonical | fluidgateway/fluidlink_v2.py:641-651 | Every accepted hello payload re-encodes to the same bytes. |
| DecisionCodec.WelcomeIsWritable | fluidgateway/fluidlink_v2.py:654-689 | A welcome whose accepted capabilities are available and whose names fit can always be written within the limit. |
| DecisionCodec.WelcomeParsesBack | fluidgateway/fluidlink_v2.py:654-712 | Every welcome that can be written reads back, with the payload limit it announces. |
| WireLimits.HelloIsSentExactlyWhen | fluidgateway/fluidlink_v2.py:616-638 | A hello can be written if and only if its digest has 32 bytes and its names fit. |
| WireVectors.HelloRequest | contracts/fluidlink-v2.golden.json:7-11 | The payload of the published hello, byte for byte. |
| WireVectors.BatchHelloRequest | contracts/fluidlink-v2-batch.golden.json:7-11 | The payload of the published batch hello, byte for byte. |
| WireVectors.WelcomeResponse | contracts/fluidlink-v2.golden.json:12-16 | The payload of the published welcome, byte for byte. |
| WireVectors.PingAndPong | contracts/fluidlink-v2.golden.json:52-61 | The payload of the published ping and pong, byte for byte. |
| DecisionCodec.NonceIsEchoed | fluidgateway/fluidlink_v2.py:715-725 | The nonce read from a ping is written back as the same bytes. |
| DecisionCodec.ErrorPayloadIsWritable | fluidgateway/fluidlink_v2.py:728-735 | An error payload can be written if and only if the message is not a short text with a lone surrogate, and then fits. |
| DecisionCodec.ErrorParsesBack | fluidgateway/fluidlink_v2.py:728-749 | An error payload reads back as its number and the truncated message. |
| WireVectors.InvalidPayloadResponse | contracts/fluidlink-v2.golden.json:77-81 | The payload of the published error, byte for byte. |
| Session.FluidLinkV2ServerSession.ProcessRequest | fluidgateway/fluidlink_v2.py:1335-1396 | The session object's fields, the handler's log and the response after a request are those of the transition function. |
| Session.FluidLinkV2ServerSession.Hello | fluidgateway/fluidlink_v2.py:1398-1452 | The handshake sets identity, contract and capabilities together, or answers the error of the first failing check and sets nothing. |
| Session.FluidLinkV2ServerSession.HandleEvent | fluidgateway/fluidlink_v2.py:1454-1502 | An event reaches the handler only after every check, and its answer or failure becomes the response. |
| Session.FluidLinkV2ServerSession.OperationBatch | fluidgateway/fluidlink_v2.py:1504-1569 | The loop submits operations in order, stops at the first rejection and then closes the session. |
| Session.FluidLinkV2ServerSession.Ping | fluidgateway/fluidlink_v2.py:1571-1587 | A ping is answered as the transition function says and changes nothing. |
| Session.RejectedBatchStops | fluidgateway/fluidlink_v2.py:1504-1569 | After a rejected operation no later one of the batch reaches the handler. |
| SessionAnswers.EveryResponseEchoes | fluidgateway/fluidlink_v2.py:588-613 | Every response carries its request's sequence and message id and the session's identity, and is marked as a success unless it is an error. |
| SessionAnswers.RefusalsSayWhy | fluidgateway/fluidlink_v2.py:1335-1396 | A frame that is no request, comes out of turn, before the handshake, for another session, after closing, with a decision or subject opcode it may not have or with an unknown opcode is refused with the number of that error, and the handler is not reached. |
| SessionAnswers.SessionStartsExactlyWhen | fluidgateway/fluidlink_v2.py:1398-1452 | A session starts if and only if the request in turn is a readable hello for a known contract that requires what that contract demands and offers; it then accepts exactly what was asked for and is offered, and the client reads that in the welcome. |
| SessionAnswers.HandlerIsReachedExactlyWhen | fluidgateway/fluidlink_v2.py:1454-1502 | The handler is called if and only if the request passes every check before it. |
| SessionAnswers.EventIsAnswered | fluidgateway/fluidlink_v2.py:1485-1502 | An event that reaches the handler is answered by its reply: accepted or not, executed or not, the opcode of the policy that removed it and what that saves, or an error with the text raised. |
| SessionAnswers.PingIsAnsweredExactlyWhen | fluidgateway/fluidlink_v2.py:1571-1587 | A ping gets a pong with its own payload if and only if it is readable and heartbeats were agreed, and the error of the failing check otherwise. |
| SessionAnswers.GoodbyeIsAnswered | fluidgateway/fluidlink_v2.py:1589-1602 | An empty goodbye is answered and closes the session; any other is an error. |
| SessionAnswers.SessionClosesExactlyWhen | fluidgateway/fluidlink_v2.py:1504-1602 | A request closes the session if and only if it is an empty goodbye in turn or a batch that fails. |
| SessionSafety.StepIsSafe | fluidgateway/fluidlink_v2.py:1335-1602 | Every request keeps the negotiated state sound, and reaches the handler only with the next sequence number and the negotiated capabilities. |
| SessionSafety.HelloIsSafe | fluidgateway/fluidlink_v2.py:1398-1452 | Accepted capabilities contain the required ones, lie inside those requested or required, and the handler is not reached. |
| SessionSafety.RunsStayNegotiated | fluidgateway/fluidlink_v2.py:1335-1452 | In every reachable state accepted capabilities lie inside those available for the negotiated digest. |
| SessionSafety.RunsOnlyEvolve | fluidgateway/fluidlink_v2.py:1335-1602 | Over any stretch of any run, identity, contract and capabilities never change once set, sequence numbers only grow, and a closed session never changes or reaches the handler again. |
| SessionSafety.HandlerSeesSequencesInOrder | fluidgateway/fluidlink_v2.py:1335-1396 | Two requests that reach the handler do so under different sequence numbers, increasing with time. |
| SessionSafety.LogIsInSequenceOrder | fluidgateway/fluidlink_v2.py:1335-1396 | The handler's log never runs backwards through the sequence numbers and stays below the expected one. |
| SessionSafety.BatchIsOneAtATime | fluidgateway/fluidlink_v2.py:1504-1569 | A fully answered batch logged exactly its operations, and each entry is the compact form of submitting that operation next on its own. |
| SessionSafety.BatchIsAllOrClosed | fluidgateway/fluidlink_v2.py:1504-1569 | A batch that reached the handler is answered by one entry per operation under its own id, or the session is closed. |
| SessionResponses.ResponsesAreSendable | fluidgateway/fluidlink_v2.py:1335-1618 | For every valid request and any handler, the response can be sent if and only if the handler, when it was reached, did not last raise a short text with a lone surrogate; the state stays fit to respond. |
| SessionResponses.UnansweredExactlyWhen | fluidgateway/fluidlink_v2.py:1335-1618 | A request gets no response if and only if it passes every check and its event, or the first operation of its batch that is not accepted, makes the handler raise such a text; every other response is a valid frame. |
| SessionResponses.RequestsOfARunUnansweredExactlyWhen | fluidgateway/fluidlink_v2.py:1335-1618 | The same for every request of every run over what a transport delivers. |
| SessionResponses.WellBehavedHandlersAreAlwaysAnswered | fluidgateway/fluidlink_v2.py:1335-1618 | Behind a handler that never raises such a text every response of every run can be sent. |
| SessionResponses.LoneSurrogateGoesUnanswered | fluidgateway/fluidlink_v2.py:1604-1618 | After an ordinary handshake, an ordinary event goes unanswered when the handler raises a single lone surrogate. |
| BatchHandler.OptimizerAnswersBatches | fluidgateway/fluidlink_v2.py:1504-1569 | With the adapter session as handler, after any log, a decodable batch whose ids are fresh leaves the session open and is answered by a vector that decodes to one entry per operation, all equal or one execute followed by identical removals; a batch with a taken id closes the session and gets no vector. |
| BatchHandler.BatchIsSubmitted | fluidgateway/adapter.py:497-553 | The handler answers the operations of a batch as the optimizer does when the one operation the batch describes is submitted under each of its ids in turn. |
| BatchHandler.BatchEntries | fluidgateway/fluidlink_v2.py:1530-1550 | The loop over a batch succeeds if and only if every id could be submitted, and then lists the compact form of each verdict. |
| BatchHandler.IdentifiersDiffer | fluidgateway/fluidlink_v2.py:1537-1542 | The operations of a batch have different ids, up to a thousand of them. |
| BatchHandler.SubmitAllNeedsFreshIds | fluidgateway/runtime.py:153-155 | Distinct ids can be submitted one after the other if and only if none was submitted before, and exactly they are then recorded. |
| BatchHandler.VerdictsAreModest | fluidgateway/runtime.py:254-335 | A removal saves exactly the submitted operation's cost and at most its bytes. |
| BatchHandler.DecodedBatchIsBounded | fluidgateway/fluidlink_v2.py:841-887 | The fields of a decoded batch lie within their wire widths. |
| BatchHandler.VerdictsOfBatch | fluidgateway/fluidlink_v2.py:890-911 | The vector of verdicts on a decoded batch is uniform and always encodes, its savings fitting their fields. |
| BatchHandler.MicrosRoundTrip | fluidgateway/fluidlink_v2.py:1742-1789 | Wire microseconds survive the way through milliseconds and back. |
| WireOperations.MicrosAreNearest | fluidgateway/fluidlink_v2.py:1742-1789 | Savings are reported in the nearest whole microsecond, halves rounded up. |
| OperationHandler.OptimizerAnswersOperations | fluidgateway/fluidlink_v2.py:1454-1502 | With the adapter session as handler, an operation event is answered by the optimizer's verdict: execute, or the opcode of the policy that removed it with the submitted cost and the bytes saved; a taken id is an error and leaves the session open. |
| WireOperations.EventsDescribeTheirOperation | fluidgateway/events.py:131-152 | What the adapter submits for an operation event is the operation the engine wrote. |
| WireOperations.BatchesDescribeTheirOperation | fluidgateway/fluidlink_v2.py:1530-1542 | What the adapter submits for a batch is the operation the engine wrote, under each of the batch's ids. |
| WireOperations.OperationIdsReadBack | fluidgateway/fluidlink_v2.py:1537-1542 | The id of a batch operation holds the batch id in hexadecimal and the ordinal in three decimal digits. |
| ConnectionSlots.StepKeepsAccounts | fluidgateway/server.py:341-412 | Every atomic step of every thread keeps permits, slots being acquired, active slots and owed permits adding up to the maximum. |
| ConnectionSlots.RunsKeepAccounts | fluidgateway/server.py:341-412 | The accounts balance in every state of every interleaving. |
| ConnectionSlots.SemaphoreIsNeverOverReleased | fluidgateway/server.py:401-407 | No release ever finds the bounded semaphore full, despite early and final release of one connection. |
| ConnectionSlots.ActiveConnectionsAreBounded | fluidgateway/server.py:337-339 | The counter equals the size of the active set and never exceeds the maximum. |
| ConnectionSlots.OnePermitPerConnection | fluidgateway/server.py:341-412 | Over every interleaving at most one permit is taken for a connection, and the permits it returned and the one it still holds add up to those taken. |
| ConnectionSlots.QuiescentConnectionsReturnedTheirPermit | fluidgateway/server.py:341-412 | When every thread has finished, each connection returned exactly the permit taken for it. |
| ConnectionSlots.QuiescentServerHasEverySlotFree | fluidgateway/server.py:341-412 | When every thread has finished, every permit is back and the set and counter are empty. |
| SlotProgress.RefusedOnlyWhenFull | fluidgateway/server.py:341-351 | Over every interleaving a new connection is taken in if and only if fewer than the maximum hold a slot. |
| SlotProgress.EarlyReleaseFreesTheSlot | fluidgateway/server.py:214-215 | An early release frees the slot while the thread still runs, and the final release then changes nothing. |
| SlotProgress.EveryServerCanDrain | fluidgateway/server.py:341-412 | From every state that keeps the accounts the threads at work can finish, and the server comes to rest. |
| SlotProgress.DrainedMeansFree | fluidgateway/server.py:341-412 | At rest every permit is back. |
| DeadlineReader.DeadlineSocketReader.StartFrameDeadline | fluidgateway/server.py:59-68 | With nothing buffered the idle deadline is set and the frame time kept for later; buffered bytes start the frame deadline at once. |
| DeadlineReader.DeadlineSocketReader.ActivateFrameDeadline | fluidgateway/server.py:124-129 | The frame deadline is fixed once and replaces the idle deadline. |
| DeadlineReader.DeadlineSocketReader.Receive | fluidgateway/server.py:103-122 | Polling terminates; under a deadline every byte is in time; otherwise the first byte comes by the idle deadline and fixes the deadline of all later ones one frame time after it. |
| DeadlineReader.DeadlineSocketReader.Read | fluidgateway/server.py:70-80 | Exactly the leading buffered bytes that fit are returned, otherwise bytes are received in time; returned plus buffered bytes stay the bytes received; an empty answer to a positive size means the peer closed, and only that. |
| DeadlineReader.DeadlineSocketReader.ReadLine | fluidgateway/server.py:82-101 | A line ends at its first newline or at the limit, and falls short of both exactly when the peer closed; no byte is lost or reordered. |
| DeadlineReader.InTimeComposes | fluidgateway/server.py:54-129 | Two reads in a row promise of all their bytes what one read promises of its own, both bounds included. |
| DeadlineReader.InTimeIsBounded | fluidgateway/server.py:54-129 | Over any reads no byte is accepted after the idle plus the frame time, and the limit never moves out. |
| DeadlineReader.ReadNextFrame | fluidgateway/server.py:269-273 | With nothing buffered the first byte of a frame is accepted within the idle timeout and every byte within the frame timeout of the first; with bytes buffered all come within the frame timeout of the start. |
| DeadlineReader.ReadOpening | fluidgateway/server.py:149-174 | Magic and version byte are read byte by byte within the initial deadline, and what was read and whether the peer closed say whether the connection is silent, legacy, framed or unsupported; then the frame deadline runs. |
| DeadlineReader.OpeningIsDetermined | fluidgateway/server.py:149-174 | How much is read and what it amounts to depends on the bytes and not on how they arrive. |
| DeadlineReader.EncodedFramesOpen | fluidgateway/server.py:167-172 | A connection that starts with an encoded frame is recognised as the version the frame is written in. |
| Numbers.RoundingIsIdempotent | fluidgateway/windowing.py:38-54 | Rounding to four decimals twice is rounding once. |
| Numbers.RoundingIsMonotone | fluidgateway/windowing.py:38-54 | Half-even rounding to four decimals keeps order. |
| Numbers.RoundingIsNearest | fluidgateway/windowing.py:38-54 | Rounding gives a nearest multiple of a ten-thousandth, the even one of two. |
| Sequences.SortPermutes | fluidgateway/dispatch.py:216-225 | Sorting keeps every element with its multiplicity. |
| Sequences.SortSorts | fluidgateway/dispatch.py:216-225 | Sorting by a total preorder leaves every pair in order. |
| Sequences.SortIsStable | fluidgateway/dispatch.py:216-225 | Elements the order does not tell apart stay in their original order. |
| Windowing.PacketsComeFromWindowPlans | fluidgateway/windowing.py:145-199 | Commands of a packet built from routed work have rounded non-negative costs, never a post-present window, and prestaged effect exactly in the pre-frame window. |
| Windowing.PacketCarriesTheWork | fluidgateway/windowing.py:145-199 | For every frame and effect the packet costs what was routed with a directive of that effect, rounded. |
| Windowing.PacketsAreInOrder | fluidgateway/windowing.py:145-199 | Commands come by frame, within a frame as removed, staged, prepared and protected work, and then by id. |
| PlannedWork.SimulationSplitsTheFrame | fluidgateway/executor.py:169-206 | The removed, staged, prepared and protected sums of a frame add up to all its commands. |
| BudgetEnvelope.AdjustmentsSay | fluidgateway/adaptive.py:146-240 | What each adjustment asks follows from the frame's sums and by how far its protected work is over the target. |
| BudgetArbiter.BuildBudgetArbitration | fluidgateway/arbiter.py:111-154 | The loop with its two usage tables gives the arbitration of every command in packet order. |
| BudgetArbiter.CountersAddUp | fluidgateway/arbiter.py:174-231 | Each counter holds the cost of everything charged to it, admitted or not, with frame 0 and frameless work on one counter. |
| PlannedWork.HotPathIsAdmittedExactlyWhen | fluidgateway/arbiter.py:209-231 | Hot-path work of a frame is admitted if and only if what was charged to its counter before it and its own cost fit the frame's target. |
| PlannedWork.FramelessHotPathIsAdmittedExactlyWhen | fluidgateway/arbiter.py:209-231 | Frameless hot-path work is admitted if and only if nothing was charged to its counter before. |
| PlannedWork.VerdictsFitTheirWindow | fluidgateway/arbiter.py:174-231 | Removed work is dropped, setup work prepared, and staged and protected work are let in or deferred, each by its own verdict. |
| PlannedWork.StatusesFitTheirWindow | fluidgateway/arbiter.py:130-154 | Removed work counts as dropped, staged work as prestaged, what may not run yet as deferred. |
| BudgetArbiter.AdmissionIsBounded | fluidgateway/arbiter.py:174-231 | Per frame with an envelope, admitted hot-path cost stays within its limit and prestaged cost within its window. |
| BudgetArbiter.AdmissionIsAPrefix | fluidgateway/arbiter.py:174-231 | Within a frame and window nothing is admitted after something was turned away. |
| BudgetArbiter.StatusesPartitionThePacket | fluidgateway/arbiter.py:130-154 | The four status counts add up to the number of commands. |
| DispatchPlans.DispatchPlansAreSorted | fluidgateway/dispatch.py:216-225 | The dispatch plan itself, rounded as it is, is sorted by the dispatch order. |
| DispatchPlans.DispatchOrderIsTotal | fluidgateway/dispatch.py:216-225 | Any two commands compare, and the comparison is transitive. |
| DispatchPlans.PlansComeInTurns | fluidgateway/dispatch.py:216-225 | Waste goes first, then memory relief, prepared, staged, running and deferred work, within a turn by frame and name. |
| DispatchPlans.PlannedCostOfDispatch | fluidgateway/applier.py:109-140 | After sorting, rounding and application, a frame's planned current cost is exactly what the arbiter admitted to it. |
| BudgetLoop.AdmittedFitsTheTarget | fluidgateway/budget.py:129-167 | The envelope derived from the frame target bounds what is admitted by that target. |
| BudgetLoop.PlannedWorkFitsTheTarget | fluidgateway/calibration.py:146-223 | For any routed work no frame is planned over its target, and calibration never tightens the guardband for planned pressure. |
| PlannedWork.AllProtectedWorkIsAdmitted | fluidgateway/arbiter.py:209-231 | A frame alone on its counter whose protected work fits its target has all of it admitted. |
| PlannedWork.FittingWorkIsPlannedExactly | fluidgateway/calibration.py:146-199 | Such a frame is planned at exactly the rounded cost of its protected routes. |
| PlannedWork.ColumnsHoldTheVerdicts | fluidgateway/applier.py:109-140 | In the applied plan each column of a frame holds exactly the work with the verdicts it stands for. |
| PlannedWork.WorkIsConserved | fluidgateway/applier.py:109-140 | No cost is lost: removed work is reported as avoided, and staged and protected work is moved ahead, run now or deferred. |
| LoopOutcomes.CalibrationRecommends | fluidgateway/calibration.py:146-223 | A frame observed within its target keeps it; one over it gives up a quarter of the planned relief, at least half a millisecond, at most a quarter of the target; the action follows from observation and plan. |
| LoopOutcomes.DirectivesRecommend | fluidgateway/manager.py:162-210 | The whole next budget goes to the hot path, late copies are blocked exactly for frames over target or without work and share the free room otherwise, and the reserved window is all staged work and the overrun. |
| RuntimeCalibration.GuardbandTakesAtMostAQuarter | fluidgateway/calibration.py:146-209 | The next budget lies between three quarters of the target and the target, and is the target exactly when the frame was observed within it. |
| BudgetEnvelope.CopyBudgetFitsBesideTheHotPath | fluidgateway/budget.py:129-167 | The copy queue gets only room the protected hot path leaves free, and none exactly when there is none. |
| BudgetEnvelope.EnvelopeWindow | fluidgateway/adaptive.py:146-240 | The window a frame is given is its whole pre-frame work plus its overrun. |
| PreFrameStaging.OwnPreFrameWorkIsStagedExactlyWhen | fluidgateway/arbiter.py:174-231 | A frame's own pre-frame command is staged if and only if the foreign work charged to its counter before it is at most the frame's own pre-frame work still to come plus its overrun. |
| PreFrameStaging.FramelessWorkIsStagedExactlyWhen | fluidgateway/arbiter.py:174-231 | Frameless pre-frame work is staged if and only if nothing was charged to its counter before. |
| PreFrameStaging.OwnPreFrameWorkIsNeverDeferred | fluidgateway/adaptive.py:146-240 | So a frame that shares its counter with nobody has none of its pre-frame work deferred. |
| PreFrameStaging.SharedAccountDefersOwnWork | fluidgateway/arbiter.py:174-231 | Frameless work alone can turn frame 0's own pre-frame work away. |
| ControlPackets.BuildControlCommands | fluidgateway/control_packet.py:114-125 | The packet lists the six commands of every frame directive in order, then one command per memory layer. |
| ControlStates.FrameControlState.Apply | fluidgateway/control_state.py:25-41 | A command updates its one field, counts itself and raises the priority if it is stronger. |
| ControlStates.ApplyRuntimeControlPacket | fluidgateway/control_state.py:130-166 | Applying commands to records created on first use gives the state of the left-to-right specification, with no record shared. |
| Manager.HotPathStaysWithinTheBudget | fluidgateway/manager.py:162-194 | A directive's hot path never gets more than the whole next frame, before or after rounding. |
| ControlStates.DirectivesApplied | fluidgateway/control_state.py:130-166 | Every directive's frame ends with a record holding its rounded values and modes, its priority and six counted commands, and no memory state appears. |
| ControlStates.PriorityIsTheStrongest | fluidgateway/control_state.py:25-41 | Whatever the packet, a frame's priority is the strongest of the commands addressed to it, and all of those are counted. |
| ControlStates.RecordedFramesAreDirected | fluidgateway/control_state.py:130-166 | Every recorded frame comes from some directive. |
| ControlStates.MemoryApplied | fluidgateway/control_state.py:169-185 | Memory commands append one memory state each and touch no frame. |
| GatewayTicks.BuildRuntimeGatewayTick | fluidgateway/gateway.py:96-133 | The tick lists the steps of every frame in ascending order and then one step per memory state. |
| GatewayTicks.TickProtects | fluidgateway/gateway_feedback.py:202-211 | Summing a protecting action over the tick reads each frame's budget exactly once, and zero for a frame not listed. |
| LoopOutcomes.TickSays | fluidgateway/gateway.py:96-225 | The six steps of each frame, in order, with their lanes, actions, budgets and settings. |
| ControlLoop.FeedbackReadsTheManagersBudgets | fluidgateway/gateway_feedback.py:162-211 | Through packet, control state, tick and cycle, feedback reads back the manager's budgets, rounded once. |
| ControlLoop.AppliedRelief | fluidgateway/applier.py:109-140 | Relief through arbiter, dispatch and applier is the sum of rounded pressures of over-budget layers. |
| ControlLoop.GatewayRelief | fluidgateway/gateway_cycle.py:193-202 | Relief through manager, control packet, control state, tick and cycle is the same sum. |
| ControlLoop.MemoryDeltaIsZero | fluidgateway/gateway_feedback.py:111-159 | The two routes agree, so the memory delta of the feedback is zero. |
| LoopOutcomes.ReliefIsWhatExceedsTheBudgets | fluidgateway/budget.py:170-215 | Both routes relieve the sum over all layers of the rounded excess of active memory over its budget. |
| LoopOutcomes.ArbiterSays | fluidgateway/arbiter.py:244-270 | A layer over its budget is evicted by its excess, one from 85% on is reserved, and any other is left alone. |
| LoopOutcomes.MemoryStepSays | fluidgateway/gateway.py:226-268 | A layer is relieved of its excess, reserves 15% of its budget from 85% on, or is held or observed, by its active memory and budget alone. |
| ControlLoop.LoopNeverAsksToTighten | fluidgateway/gateway_feedback.py:162-226 | For any routed work feedback reads the recommended budget, shows no planned overrun and never asks to tighten. |
| LoopOutcomes.FeedbackSays | fluidgateway/gateway_feedback.py:162-226 | Feedback reads the recommended budget for frame and hot path, and its action follows from observation, target, recommendation and plan. |
| Ledger.RuntimeAdapterSession.ProcessEvent | fluidgateway/adapter.py:236-253 | Every event changes the session as the transition function says, refused events included. |
| Ledger.RuntimeAdapterSession.ProcessFrameEvent | fluidgateway/adapter.py:412-451 | Beginning and ending a frame update its record, which is created even when the event is then refused. |
| Ledger.RuntimeAdapterSession.ProcessOperationEvent | fluidgateway/adapter.py:497-553 | An operation is stamped with the open frame, submitted, and booked to its frame as executed or saved; a refused one changes nothing. |
| Ledger.QueueTotalSplits | fluidgateway/adapter.py:520-528 | The sum over a frame's queues does not depend on the order of queues. |
| Ledger.EventKeepsBalance | fluidgateway/adapter.py:379-570 | Every event keeps each frame's total equal to its queue costs, to its executed operations, queue by queue, and its transferred bytes right. |
| Ledger.RunsStayBalanced | fluidgateway/adapter.py:379-570 | The ledger balances in every reachable state, frames of executed operations are recorded, targets are non-negative and no executed id repeats. |
| Ledger.SubmittedCostIsExecutedOrSaved | fluidgateway/adapter.py:497-553 | For every frame of every run, executed plus saved cost is the cost of the operations accepted for it. |
| LedgerHistory.SessionsTellTheirHistory | fluidgateway/adapter.py:379-451 | In every reachable state the session budget, the open frame, whether the session ended, which frames are recorded, their targets and their marks are what the accepted events last said. |
| LedgerHistory.EndIsAcceptedExactlyWhen | fluidgateway/adapter.py:379-451 | A frame can end if and only if it is the open one, and the session if and only if none is open. |
| LedgerHistory.RunsCountExactly | fluidgateway/adapter.py:497-553 | Per frame the operations accepted, those removed and the bytes removal saved are counted exactly. |
| Ledger.BeginIsAcceptedExactlyWhen | fluidgateway/adapter.py:418-449 | Over every run, a frame can begin if and only if none is open and no event without an index ended that frame while it was open and marked as begun. |
| Ledger.BlockedExactlyWhen | fluidgateway/adapter.py:418-449 | Over every run, a frame looks begun and not ended while it is not open if and only if such an event occurred. |
| Ledger.BeginIsRefusedOnlyWhileOpen | fluidgateway/adapter.py:418-427 | So when all events carry an index, or none does, a frame can begin if and only if no frame is open. |
| Ledger.EndWithoutIndexBlocksTheFrame | fluidgateway/adapter.py:418-449 | A concrete run: begun with an index and ended without one, a frame is refused although none is open. |
| Ledger.BlockedFramesNeverBegin | fluidgateway/adapter.py:418-449 | After such an event, beginning the frame is refused after every continuation of the run. |
| Scheduler.GroupByFrame | fluidgateway/scheduler.py:110-118 | Filing items under frames gives, for every frame, its items in their original order and no other keys. |
| Scheduler.AppendSteps | fluidgateway/scheduler.py:137-204 | Appending with a running counter numbers the steps consecutively. |
| Scheduler.ScheduleOneFrame | fluidgateway/scheduler.py:125-219 | One turn of the loop appends the frame's steps and summarises it, the step count being those just added. |
| Scheduler.SimulateScheduler | fluidgateway/scheduler.py:99-226 | The whole scheduling loop computes the specified plan and its totals. |
| ScheduleFacts.OperationStepsAreTheFramedOperations | fluidgateway/scheduler.py:115-184 | Operation steps are the framed operations, each exactly as often as it was executed. |
| ScheduleFacts.StepsAreInOrder | fluidgateway/scheduler.py:120-241 | Sequence numbers run from 1 without gaps, frames ascend, and inside one prefetches by id, work by kind and id and releases by urgency follow each other. |
| ScheduleOutcomes.StepsComeInTurn | fluidgateway/scheduler.py:120-241 | Inside a frame prefetches come by id, then syncs, transfers, compute, draw, present and the rest by id, then releases by falling priority and resource. |
| ScheduleOutcomes.StepsAreProper | fluidgateway/scheduler.py:105-241 | Every step is an operation in its own frame, prefetched if and only if an action asks for that and else in the phase of its kind, or a release after the frame it names. |
| ScheduleOutcomes.ReleaseStepsAreTheReleases | fluidgateway/scheduler.py:185-204 | The lifetime steps are the releases after the scheduled frames, each as often as it was asked for. |
| ScheduleOutcomes.MovedIsWhatIsPrefetched | fluidgateway/scheduler.py:125-135 | The cost and size moved ahead of a frame are those of exactly its prefetched operations, and budget status compares path and target. |
| ScheduleOutcomes.StepsAreCounted | fluidgateway/scheduler.py:205-226 | Each frame counts its own steps, and the plan's totals are the sums over its frames. |
| ScheduleFacts.ScheduleMovesExactly | fluidgateway/scheduler.py:125-226 | On a session's ledger the schedule has the ledger's frames, each path shrinks by exactly the moved cost and the latency reduction is the sum of those. |
| ScheduleFacts.FrameMovesExactly | fluidgateway/scheduler.py:125-135 | A frame's path before is its ledger total, before minus after is the moved cost, and a frame within budget stays within. |
| ScheduleFacts.ReachableSchedulesAreExact | fluidgateway/adapter.py:584-595 | The schedule of every session an engine can drive is numbered without gaps and in order, holds the framed operations, has the ledger's frames and totals, and moves exactly what it says. |
| Adapter.FramesOfSession | fluidgateway/adapter.py:295 | The stages receive each recorded frame once, in ascending order, with its own target and total cost. |
| Adapter.SessionFramesAreWellFormed | fluidgateway/adapter.py:255-301 | In every run the frames handed to the stages are distinct and have non-negative targets. |
| Adapter.SessionsCloseTheLoop | fluidgateway/adapter.py:255-377 | Whatever was reported and routed, no frame is planned over its target, its feedback reads the recommended budget, nothing asks to tighten and applied relief equals reported relief. |
| Stats.PercentileIsWithinTheSample | fluidgateway/stats.py:22-34 | A percentile lies between the least and the greatest value. |
| Stats.PercentilesAreMonotone | fluidgateway/stats.py:22-34 | Percentiles are monotone in the requested fraction. |
| Stats.PercentileAtARankIsExact | fluidgateway/stats.py:22-34 | At the fraction of a rank the percentile is that order statistic. |
| Stats.PercentileInterpolates | fluidgateway/stats.py:22-34 | Between neighbouring ranks the percentile moves along a straight line. |
| Stats.PercentileIsSymmetric | fluidgateway/stats.py:22-34 | The percentile of the negated sample at the opposite fraction is the negated percentile. |
| Stats.PercentileIgnoresOrder | fluidgateway/stats.py:22-34 | Permuting the sample does not change its percentiles. |
| Stats.SummaryIsOrdered | fluidgateway/stats.py:45-56 | Every non-empty summary has p50 at most p95 at most p99 at most the maximum, and its mean at most the maximum. |
| Stats.SummarySays | fluidgateway/stats.py:45-56 | A summary has the sample's size, mean, maximum and its 50, 95 and 99 percent points. |

## Left out

- Registering a resource after the first operation: the meaning and order theorems take the table as fixed, as a manifest does; `fluidgateway/control.py:41-63` invalidates nothing.
- Kind, lifetime and size of a resource, which the optimizer never reads; operation sizes are natural byte counts and costs exact reals, so float rounding and `Decimal` conversion are not modelled.
- RuntimeMeaning.FullRunIsKeptRun: leaves out passes that reuse a transient buffer, for which it is false (`RuntimeMeaning.ReuseLosesARun`); `RuntimeMeaning.KeptRunsExactly` says for every pass which runs of the full list are kept.
- RuntimeDependencies.RewrittenOrderIsExact: asks that dependencies name earlier or never-submitted operations; `RuntimeDangling.ForwardReferenceCanDangle` shows why, and `RuntimeDangling.WaitsForExactly` covers the other lists.
- Transient reasons are lower-cased as ASCII, which is enough for the four tokens looked for.
- The payload codecs of session, frame, resource and state events: the session takes an arbitrary predicate for which payloads they accept.
- Sessions over any handler name an operation of a batch by the pair of batch and ordinal; `BatchHandler` derives its textual id.
- BatchHandler.OptimizerAnswersBatches: treats the ordinary events as an arbitrary function on the adapter session; `OperationHandler.OptimizerAnswersOperations` fixes it for operation events.
- BatchHandler.VerdictsOfBatch: counts sizes in exact bytes, where the code passes them through a float of megabytes. A removed operation of 2^64 - 1024 bytes or more is there reported as 2^64 bytes, which no longer fits its field, so the batch of `BatchHandler.OptimizerAnswersBatches` closes the session although its ids are fresh.
- Error payloads carry an error code and text; the client's table of error names is not modelled.
- FluidLink v1 with its JSON payloads, and the legacy JSONL path.
- Sockets, threads, clocks and `uuid4`: a transport delivers arbitrary portions, threads interleave atomic steps, the clock moves only while waiting, and a fresh identifier is any non-zero 16 bytes. The synchronous request mode is one interleaving of the modelled steps.
- SessionSafety.BatchIsAllOrClosed: says nothing of exceptions outside the ordinary hierarchy, such as an interrupt, which leave the session as it is.
- BudgetLoop.PlannedWorkFitsTheTarget: starts from routed work with non-negative costs; how routes are derived from the transit map is not part of this model.
- Adaptive directives are computed per frame and not gathered into one list that is sorted and filtered again; counts, labels, reasons and modes of every stage are left out where no later stage reads them.
- A dispatch command carries its arbitration's value directly and not through a lookup by operation id.
- Ledger.RuntimeAdapterSession.ProcessEvent: keeps frame records as values in the session's map and leaves out policy actions, live commands, event counters and the response payloads.
- ScheduleFacts.ReachableSchedulesAreExact: takes any list of lifetime actions; how the lifetime planner proposes them is not part of this model.
- Standard deviation, which needs a square root, and percentile fractions outside 0 to 1.
- The native decision core, the command line, reports, host inspection, file output and the supervisor chain.
