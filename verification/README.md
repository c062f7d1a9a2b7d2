# Preemption Fabric: a verified model

A Dafny model of the Preemption Fabric runtime: the protocol that stops an execution at a safe point, makes its state
durable, releases its resources, and later resumes it under fresh authority; its durable image; the framed wire
protocol; and the checksum and checked arithmetic underneath. Verify the whole project with
`dafny verify dfyconfig.toml`.

## How it is built

| file | contents |
|---|---|
| `Words.dfy`, `Checked.dfy` | 64-bit words, little-endian byte strings, `ByteWriter`, `ByteReader`, overflow-checked arithmetic |
| `Crc32.dfy`, `Division.dfy` | CRC-32: the table-driven loops, the bit-serial register, burst detection; and the standard's polynomial division, which they compute |
| `Fields.dfy`, `Offsets.dfy` | tables of fixed-width and text fields, their round trips, and where each field lies |
| `Framing.dfy`, `Stream.dfy`, `Layout.dfy` | wire messages, frames, the incremental decoder; the wire layout and every outcome by byte offsets |
| `Lifecycle.dfy`, `Adapters.dfy`, `Domain.dfy` | the guarded lifecycle, the reference environment, shared records |
| `Image.dfy`, `Store.dfy`, `StoreCode.dfy`, `ImageLayout.dfy` | the durable image: field tables, validation, encoding, decoding; its layout and acceptance by byte offsets |
| `Protocol.dfy` | one function per runtime operation, from a world to a world and a reply |
| `Runs.dfy`, `Evidence.dfy` | what every step keeps; safety over whole runs |
| `Admission.dfy`, `Replies.dfy` | who is admitted, by the calls so far; every reply against the move, and the state from calls and replies alone |
| `Recovery.dfy`, `Bisimulation.dfy` | exact recoverability; behaviour after recovery |
| `Drivers.dfy` | the coordinator's call sequences: convergence, truth of the resume explanation |
| `EndToEnd.dfy` | preempt, crash, recover, resume: drivers, runs and codec together |
| `Witnesses.dfy` | reachable runs in which the code departs from its comments |
| `Runtime.dfy` | the runtime as an object with fields updated in place, proved against `Protocol.dfy` |

A *world* is a runtime and its environment. A *run* is any sequence of operations and environment changes from a fresh
runtime in any environment; an environment change puts an arbitrary authority record, checkpoint store, broker,
dependency status or quiescence map in place, so it covers every adapter setter. A *restore-free* run never restores
an accepted image; attempts that are rejected may occur. Where the source throws, the model replies `Threw`.

## Where the code departs from what it says

- The header of the lifecycle machine says resources cannot be released without quiescence. The graph does not give
  that: a path avoids Quiesced exactly when it takes the edge from Assessing to CaptureRequired
  (`Lifecycle.ReleaseWithoutQuiescence`). The runtime's guards do give it (`Evidence.PreemptionIsEarned`).
- Starting an execution clears neither the evidence flags nor the current safe point. The evidence behind a preemption
  is therefore proved from the steps of the run, the origin of the safe point included. An execution can be preempted
  at a safe point that an earlier one reached (`Drivers.StalePreemption`, `Witnesses.SecondExecutionAtOldPoint`), and a
  skipped capture leaves an earlier checkpoint on record for the resume to validate. It also shows from outside: a
  recovered runtime waits for a safe point where the original quiesces at once, and calls that look at the safe point
  are the only ones that can tell the two apart without publication (`Bisimulation.RecoveryBisimulates`,
  `Witnesses.CoordinatorDiverges`).
- Quiescing from Deferred asks for an edge that does not exist. That is the only illegal edge any operation can ask for
  (`Runs.StepFollowsEdge`); restore-free runs never do (`Runs.NoIllegalEdge`), a restored image can
  (`Runs.DeferredImageThrows`, `Witnesses.RecoveredRunThrows`).
- A comment says completion is rejected once preempted; the guard omits Preempted, so completion aborts a committed
  preemption, exactly when it is called in that state, and for good (`Evidence.CompletionAborts`,
  `Witnesses.CompletedPreemptionIsLost`).
- Validation wants released resources already in ReleasePending and Releasing, and a checkpoint whenever state is
  durable, which a no-capture preemption never records. `Recovery.ExactlyRecoverable` says exactly which reachable
  runtimes cannot be recovered from their own image, and `Witnesses.UncapturedCoordinator` shows two.
- The streaming decoder does not compare the header's type with the body's; the one-shot decoder does
  (`Framing.PopIgnoresHeaderType`, `Framing.PopAgreesWithParse`).
- The resume explanation reports a missing checkpoint as a blocker although nothing in the resume path is blocked by it
  (`Drivers.BlockersTellTheTruth`, `Witnesses.MissingCheckpointResumes`).
- A capture report is checked against the store's current generation only, not against the capture asked for: any valid
  reference is committed (`Witnesses.ClaimedCheckpointIsCommitted`).
- The commit fences the worker boot of that moment, which need not be the one that reported quiescence
  (`Witnesses.LateWorkerIsFenced`).
- Progress is said never to move backward in a generation, but recovery restores the stored progress generation without
  the counter behind it, so the next durable publication can carry a lower one
  (`Recovery.RecoveredGenerationRegresses`, `Witnesses.GenerationFalls`).

## Model

| member | source | states |
|---|---|---|
| `Words.UnLEOfLE` | include/preemption_fabric/util/binary.hpp:26-34 | reading a little-endian encoding of any width gives the number back, for every number that fits |
| `Words.LEOfUnLE` | include/preemption_fabric/util/binary.hpp:88-103 | writing the number read from any byte string gives the byte string back |
| `Words.ByteWriter.U8` | include/preemption_fabric/util/binary.hpp:21-21 | appends exactly the byte |
| `Words.ByteWriter.U32` | include/preemption_fabric/util/binary.hpp:26-31 | shift-and-mask writing appends the little-endian encoding in four bytes |
| `Words.ByteWriter.U64` | include/preemption_fabric/util/binary.hpp:32-34 | the shift loop appends the little-endian encoding in eight bytes |
| `Words.ByteReader.Word` | include/preemption_fabric/util/binary.hpp:88-103 | succeeds iff enough bytes remain; then returns their little-endian value and advances by exactly the width, otherwise moves nothing |
| `Words.ByteReader.U32` | include/preemption_fabric/util/binary.hpp:88-95 | the same for four bytes, the value fitting 32 bits |
| `Words.ByteReader.Take` | include/preemption_fabric/util/binary.hpp:113-122 | bounded read of the bytes of a text, all or nothing |
| `Words.ByteReader.AtEnd` | include/preemption_fabric/util/binary.hpp:73-73 | true iff nothing remains |
| `Checked.CheckedAdd` | include/preemption_fabric/util/checked.hpp:13-19 | exact sum when it fits the type, nothing otherwise, for every signed and unsigned range |
| `Checked.CheckedMulExact` | include/preemption_fabric/util/checked.hpp:21-35 | exact product when it fits, nothing otherwise, with truncating division in the bounds tests, for every signed and unsigned range |
| `Crc32.BuildTable` | include/preemption_fabric/util/crc32.hpp:17-26 | every table entry is eight single-bit steps of its index |
| `Crc32.Compute` | include/preemption_fabric/util/crc32.hpp:16-32 | the table-driven loop computes the byte-wise checksum of any data |
| `Crc32.TableStep` | include/preemption_fabric/util/crc32.hpp:28-30 | eight bit steps of a register equal one table entry xor the register shifted by a byte |
| `Crc32.ChecksumIsBitSerial` | include/preemption_fabric/util/crc32.hpp:16-32 | the byte-wise checksum equals the bit-at-a-time reflected shift register on every byte sequence |
| `Division.ChecksumIsRemainder` | include/preemption_fabric/util/crc32.hpp:12-32 | on every byte sequence the checksum is the frame check sequence of section 3.2.9 of IEEE 802.3: the complement of the remainder, by long division over bit strings, of the message with its first 32 bits complemented, by the generator given by its exponents |
| `Division.PolynomialBits` | include/preemption_fabric/util/crc32.hpp:12-12 | the reflected constant holds the coefficients of the generator x^32 + x^26 + x^23 + x^22 + x^16 + x^12 + x^11 + x^10 + x^8 + x^7 + x^5 + x^4 + x^2 + x + 1 |
| `Division.DivisionIsShifting` | include/preemption_fabric/util/crc32.hpp:22-22 | long division by the generator is the shift register, bit by bit |
| `Crc32.FeedInjective` | include/preemption_fabric/util/crc32.hpp:28-30 | the register step is injective: equal data from different registers stays different |
| `Crc32.WindowInjective` | include/preemption_fabric/util/crc32.hpp:28-30 | from one register, different windows of at most four bytes lead to different registers |
| `Crc32.SealedResidue` | src/protocol/framing.cpp:178-184 | a correct trailer is exactly a constant register after feeding the whole frame |
| `Crc32.BurstDetected` | src/protocol/framing.cpp:177-184 | two sealed strings of equal length that differ only within four consecutive bytes, trailer included, are equal |
| `Crc32.AppendChecksum` | src/protocol/framing.cpp:145-148 | appends the little-endian checksum of the data |
| `Crc32.TrailerMatches` | src/protocol/framing.cpp:178-184 | reading the trailer and comparing it accepts exactly the sealed strings |
| `Fields.TakeAllOfPutAll` | src/protocol/framing.cpp:13-129 | reading back any written field list gives the same fields and leaves the rest |
| `Fields.PutAllOfTakeAll` | src/protocol/framing.cpp:60-129 | whatever is read was written by exactly those fields |
| `Fields.SweepIsTakeAll` | src/persistence/store.cpp:281-297 | reading on with a failure flag and zero values agrees with strict reading: the flag survives iff every field was there |
| `Framing.BodySize` | src/protocol/framing.cpp:13-54 | a body is 245 bytes plus its two texts |
| `Framing.FrameRoundTrip` | src/protocol/framing.cpp:133-194 | an encodable message decodes to itself iff its type and enumerations are in range and its texts total at most 65,291 bytes |
| `Framing.ShortTextsEncode` | src/protocol/framing.cpp:133-150 | every message with texts that short is encodable, with its exact frame length |
| `Layout.BodyShows` | src/protocol/framing.cpp:13-54 | the body of every encodable message: all 38 fields at literal offsets, the texts after their lengths, the flag as zero or one |
| `Layout.BodyOutcome` | src/protocol/framing.cpp:60-129 | a body is accepted iff its lengths add up, its type is known and its enumerations are in range, by literal offsets and bounds; the message is the one the bytes show |
| `Layout.FrameShows` | src/protocol/framing.cpp:133-150 | the frame of every encodable message byte by byte: magic, version, type, sequence number, length, body and trailer |
| `Layout.FrameOutcome` | src/protocol/framing.cpp:152-194 | each error of the one-shot decoder and each message, as an iff on raw bytes with literal values |
| `Layout.PopOutcome` | src/protocol/framing.cpp:196-226 | each outcome of a pop on raw bytes: it waits iff the one-shot decoder finds the bytes truncated, gives up iff header, trailer or body is bad, and else takes the frame in front |
| `Layout.DecoderOutcome` | src/protocol/framing.cpp:196-226 | what each outcome does to buffer and fatal flag |
| `Framing.FrameReencodes` | src/protocol/framing.cpp:152-194 | an accepted frame re-encodes to itself iff its flag byte is zero or one and its body repeats the header's sequence number; the re-encoding always decodes to the same message |
| `Framing.LooseFrames` | src/protocol/framing.cpp:88-89 | any non-zero flag byte and any sequence number in the body give an accepted frame of the same message, equal to the encoding iff the byte is at most one and the number is the header's |
| `Framing.PopIgnoresHeaderType` | src/protocol/framing.cpp:196-226 | the streaming decoder accepts any header type over a valid body, the one-shot decoder rejects it |
| `Framing.PopAgreesWithParse` | src/protocol/framing.cpp:188-223 | on what is popped the two decoders agree iff the header's type word is the message's type |
| `Framing.ParsedFramePops` | src/protocol/framing.cpp:196-226 | whatever the one-shot decoder accepts is popped, with the same message, whatever follows it |
| `Framing.FrameBurstDetected` | src/protocol/framing.cpp:152-194 | two accepted frames of equal length that differ only within four consecutive bytes are equal; so a one-byte change is always rejected |
| `Stream.PopStable` | src/protocol/framing.cpp:196-226 | a decided pop stays decided, with the same message, when more bytes arrive |
| `Stream.PlayKeepsPending` | src/protocol/framing.cpp:196-226 | any interleaving of feeds and pops keeps what was popped plus what is still pending equal to one drain of everything fed |
| `Stream.PoppedIsPrefix` | src/protocol/framing.cpp:196-226 | for every byte stream and every chunking the popped messages are a prefix of what one drain of the whole stream yields |
| `Stream.ChunkingIrrelevant` | src/protocol/framing.cpp:196-226 | after a final drain messages and fatal flag do not depend on the chunking, and a non-fatal drain holds fewer than 65,560 bytes |
| `Stream.StreamRoundTrip` | src/protocol/framing.cpp:133-226 | any list of sendable messages, concatenated and fed, comes back as the same list with an empty buffer |
| `Stream.EncodeFrame` | src/protocol/framing.cpp:133-150 | the writer code produces the frame's bytes, or nothing where the source throws |
| `Stream.DecodeBody` | src/protocol/framing.cpp:60-129 | the reader code accepts exactly the bodies of the specification, with the same message |
| `Stream.DecodeFrame` | src/protocol/framing.cpp:152-194 | the decoder code gives the specified message or error for every input |
| `Stream.FrameDecoder.Feed` | include/preemption_fabric/protocol/framing.hpp:71-71 | appends to the buffer, fatal or not |
| `Stream.FrameDecoder.Reset` | include/preemption_fabric/protocol/framing.hpp:76-76 | empties the buffer and clears the fatal flag |
| `Stream.FrameDecoder.Pop` | src/protocol/framing.cpp:196-226 | one pop on the real buffer is one pop of the specification: message, erased prefix, fatal flag |
| `Lifecycle.EdgesRise` | include/preemption_fabric/lifecycle/lifecycle.hpp:78-170 | every edge raises the lifecycle number |
| `Lifecycle.EdgesByTarget` | include/preemption_fabric/lifecycle/lifecycle.hpp:78-170 | the graph by target: where superseding, cancelling and failing are possible, and the main path as successive numbers with five shortcuts |
| `Lifecycle.StateClasses` | include/preemption_fabric/lifecycle/lifecycle.hpp:53-65 | terminal and preempted-durable states by number |
| `Lifecycle.WalkRises` | include/preemption_fabric/lifecycle/lifecycle.hpp:38-43 | transitions in sequence end higher or where they began |
| `Lifecycle.PathRises` | include/preemption_fabric/lifecycle/lifecycle.hpp:78-170 | along any path of the graph the numbers strictly rise, so no path has a cycle |
| `Lifecycle.ReleaseWithoutQuiescence` | include/preemption_fabric/lifecycle/lifecycle.hpp:18-19 | a path from Requested to ResourcesReleased avoids Quiesced iff it takes the edge from Assessing to CaptureRequired |
| `Lifecycle.ReleaseWithoutQuiescenceExists` | include/preemption_fabric/lifecycle/lifecycle.hpp:89-92 | there is such a path |
| `Lifecycle.ResumeIsStaged` | include/preemption_fabric/lifecycle/lifecycle.hpp:20-21 | a path that ends in Resumed ends with all resume stages in order, Restoring alone being optional |
| `Lifecycle.LifecycleStateMachine.Transition` | include/preemption_fabric/lifecycle/lifecycle.hpp:38-51 | moves along allowed edges only, and stays put otherwise |
| `Lifecycle.LifecycleStateMachine.Reset` | include/preemption_fabric/lifecycle/lifecycle.hpp:73-73 | sets the state outright |
| `Adapters.Next` | include/preemption_fabric/core/identity.hpp:44-48 | strictly newer unless saturated |
| `Adapters.AccountsConserved` | include/preemption_fabric/adapters/reference.hpp:139-186 | reserved plus released of each class is constant under any mix of successful and failed releases, reacquisitions and contract advances, without wrap-around |
| `Adapters.ReleaseMoves` | include/preemption_fabric/adapters/reference.hpp:148-166 | a release succeeds iff it comes from the owner under the current contract within what is reserved, and then moves exactly those units |
| `Adapters.ReacquireMoves` | include/preemption_fabric/adapters/reference.hpp:167-186 | a reacquisition succeeds iff it comes from the owner within what was released, and then moves exactly those units; the contract generation is set in every case |
| `Adapters.ReacquireUndoesRelease` | include/preemption_fabric/adapters/reference.hpp:148-186 | reacquiring what was just released gives every account back |
| `Adapters.ContractAccounts` | include/preemption_fabric/adapters/reference.hpp:131-138 | a new contract reserves each class's demand modulo 2^64, hence exactly iff the demand fits |
| `Adapters.ReleaseLoopEmpties` | src/runtime.cpp:354-358 | releasing every lease leaves nothing reserved iff the contract belongs to the execution or nothing was reserved |
| `Adapters.ReleaseLoopMoves` | src/runtime.cpp:354-358 | the release loop credits each class with all that was reserved of it, once |
| `Adapters.QuietByName` | include/preemption_fabric/adapters/reference.hpp:227-240 | full quiescence is a report from each of the ten categories by name |
| `Adapters.ReferenceAdapters.SetAuthoritative` | include/preemption_fabric/adapters/reference.hpp:29-39 | installs the attempt as authoritative |
| `Adapters.ReferenceAdapters.FenceAttempt` | include/preemption_fabric/adapters/reference.hpp:54-57 | only clears the authoritative flag |
| `Adapters.ReferenceAdapters.GrantFresh` | include/preemption_fabric/adapters/reference.hpp:58-78 | grants the next attempt generation, bound to the worker |
| `Adapters.ReferenceAdapters.RequestCapture` | include/preemption_fabric/adapters/reference.hpp:97-109 | counts the capture and records its result under the expected generation |
| `Adapters.ReferenceAdapters.SetContract` | include/preemption_fabric/adapters/reference.hpp:131-138 | the summing loop installs the contract's accounts |
| `Adapters.ReferenceAdapters.RequestRelease` | include/preemption_fabric/adapters/reference.hpp:148-166 | moves units to released, or changes nothing for a stale contract, another execution or too few units |
| `Adapters.ReferenceAdapters.Reacquire` | include/preemption_fabric/adapters/reference.hpp:167-186 | moves units back, or fails with the contract generation already advanced |
| `Adapters.ReferenceAdapters.IsQuiescedAll` | src/runtime.cpp:235-240 | true iff all ten categories report quiescence |
| `Store.VerdictMeans` | src/persistence/store.cpp:101-155 | the validation ladder accepts exactly the well-formed states |
| `Store.VerdictCodes` | src/persistence/store.cpp:101-155 | each complaint of the ladder and exactly when it comes, by lifecycle numbers and flags |
| `Store.FirstBadPoint` | src/persistence/store.cpp:131-137 | a complaint about safe points is about the first bad one: a repeated or invalid identifier, or else an unset state |
| `Store.FirstBadReceipt` | src/persistence/store.cpp:139-148 | a complaint about receipts is about the first bad one: its resource, or else its obligation |
| `Store.ValidateState` | src/persistence/store.cpp:101-155 | the loops with the growing identifier set give the ladder's verdict, first complaint included |
| `Image.PayloadLength` | src/persistence/store.cpp:159-222 | the payload is 192 + 70 per safe point + 44 per receipt + 20 per history entry |
| `Image.ParsePayloadOfBytes` | src/persistence/store.cpp:281-389 | the payload of any record list parses back to it with nothing left over |
| `Image.BytesOfParsePayload` | src/persistence/store.cpp:281-389 | whatever parses is the payload of the parsed fields |
| `Store.StoreRoundTrip` | src/persistence/store.cpp:159-397 | decoding an encoding gives the state back iff it is well formed and its payload length fits 32 bits |
| `ImageLayout.EncodedShows` | src/persistence/store.cpp:159-243 | the image of every state whose counts fit, byte by byte: header, 27 fields and every record at literal offsets, the trailer, the flags as zero or one |
| `ImageLayout.ImageOutcome` | src/persistence/store.cpp:245-397 | an image decodes to a state iff its header and trailer are good, its bytes show that state at literal offsets, and the state is well formed |
| `ImageLayout.ImageErrors` | src/persistence/store.cpp:252-279 | the errors of header and trailer by raw bytes |
| `Store.DecodedOfEncoded` | src/persistence/store.cpp:159-397 | for every state: the exact result of decoding its encoding, the validation error included |
| `Store.Reencode` | src/persistence/store.cpp:245-397 | an accepted image re-encodes to itself iff its boolean bytes are zero or one; the re-encoding always decodes to the same state |
| `Store.LooseImages` | src/persistence/store.cpp:319-327 | any non-zero byte stands for a raised flag: such an image decodes to the same state and equals the encoding iff the byte is at most one |
| `Store.AcceptedWellFormed` | src/persistence/store.cpp:391-396 | every accepted image is well formed |
| `Store.ImageBurstDetected` | src/persistence/store.cpp:245-279 | two accepted images of equal length that differ only within four consecutive bytes are equal |
| `StoreCode.Encode` | src/persistence/store.cpp:159-243 | the writer code produces the specified image of every state |
| `StoreCode.Decode` | src/persistence/store.cpp:245-397 | the reader code gives the specified state or error for every input |
| `Runs.StepFollowsEdge` | src/runtime.cpp:34-551 | every operation moves the lifecycle along its guarded edge and nowhere else; an illegal edge is asked for iff quiescing begins in Deferred at a valid boundary |
| `Runs.LifecycleRises` | src/runtime.cpp:111-551 | only a start, an admitted request or a recovery lowers the lifecycle number |
| `Runs.EveryRunIsSound` | src/runtime.cpp:390-413 | in every run, arbitrary recoveries included: preempted-durable implies quiesced, durable and released; durable progress is at most the current position; the current safe point is valid; an active request has a valid identifier; safe points stay ordered |
| `Runs.RestoreFreeRunIsStaged` | src/runtime.cpp:196-413 | in restore-free runs each stage carries its evidence flags and an active request, six states are never rested in, and records keep their possible values |
| `Runs.NoIllegalEdge` | src/runtime.cpp:196-233 | no operation of a restore-free run asks for an illegal edge |
| `Runs.DeferredImageThrows` | src/runtime.cpp:203-207 | at a valid boundary any accepted image in Deferred makes quiescing throw |
| `Runs.DurableNeverFalls` | src/runtime.cpp:73-87 | durable progress never decreases in a restore-free run |
| `Runs.GenerationNeverFalls` | src/runtime.cpp:73-87 | in a restore-free run the generation of durable progress never decreases and never exceeds the progress generation |
| `Runs.StepFlags` | src/runtime.cpp:242-388 | each evidence flag is raised by exactly the edge that proves it and never lowered |
| `Runs.StepPoint` | src/runtime.cpp:59-71 | reaching a known safe point is the only step, starts and recoveries included, that changes where the runtime is |
| `Runs.FindInserted` | src/runtime.cpp:51-57 | the safe points are a map by identifier |
| `Evidence.PhaseStep` | src/runtime.cpp:111-413 | a phase is entered only from the one before it with its evidence, or kept by a step that neither starts nor admits |
| `Admission.AdmissionTells` | src/runtime.cpp:95-144 | in every run, recoveries included: each of the five admission codes as an iff on the request, the last start or recovery, the boot registered last and the replies so far |
| `Admission.ScopeTracks` | src/runtime.cpp:34-49 | in every run the identity in force is that of the last start or recovery, with the worker registered since |
| `Admission.OpenTracks` | src/runtime.cpp:122-144 | in every run the open request is the last one accepted or recovered with no start since |
| `Replies.BeginReply` | src/runtime.cpp:196-233 | begin quiescing: completion is reported iff the runtime quiesces, deferral iff it waits, the exception iff it stays in Deferred |
| `Replies.QuiescedReply` | src/runtime.cpp:242-268 | quiescence report: completion iff Quiescing becomes Quiesced, failure iff another boot reports |
| `Replies.CaptureReply` | src/runtime.cpp:270-300 | capture request: each reply iff the move |
| `Replies.CapturedReply` | src/runtime.cpp:302-334 | capture report: completion iff the state becomes durable, failure iff it fails |
| `Replies.ReleaseReply` | src/runtime.cpp:336-362 | release request: each reply iff the move |
| `Replies.ReleasedReply` | src/runtime.cpp:364-388 | release report: each reply iff the move |
| `Replies.CommitReply` | src/runtime.cpp:390-413 | commit: success is answered iff it enters Preempted from ResourcesReleased |
| `Replies.ResumeReplied` | src/runtime.cpp:415-432 | resume request: allowed iff from Preempted, under the generation it answers |
| `Replies.RevalidateReply` | src/runtime.cpp:434-471 | revalidation: each reply iff the move, a failed one reporting the state it found |
| `Replies.RestoreReply` | src/runtime.cpp:473-492 | restore: each reply iff the move, a failed one reporting the state it found |
| `Replies.ConfirmReply` | src/runtime.cpp:494-516 | confirmation: completion iff it enters Resumed |
| `Replies.StateIsObservable` | src/runtime.cpp:34-697 | in every restore-free run the whole state of the runtime is what an observer of the calls and their replies reconstructs |
| `Replies.AuthorityIsObservable` | src/runtime.cpp:34-516 | in every restore-free run the authority record is that of the last start or environment change, fenced by commits and renewed one attempt generation up by confirmed resumes |
| `Replies.CaptureIsRecorded` | include/preemption_fabric/adapters/reference.hpp:97-109 | a capture asked for is counted and answered under the next checkpoint generation, every field |
| `Replies.PublicationReply` | src/runtime.cpp:73-87 | a publication is accepted iff its attempt and boot hold authority and its position is not below the durable one, whatever its kind |
| `Replies.DeclareReply` | src/runtime.cpp:51-57 | a declaration answers the identifier under which the point is then found |
| `Replies.ReachReply` | src/runtime.cpp:59-71 | reaching throws iff the point is unknown; otherwise it is found valid with the call's position and flag |
| `Replies.RecoveryReply` | src/runtime.cpp:839-844 | recovery is confirmed iff the image is accepted, and otherwise changes nothing |
| `Replies.AssessmentReply` | src/runtime.cpp:146-194 | each preemptibility class as an iff, and the rollback |
| `Replies.ExplanationReply` | src/runtime.cpp:562-582 | each explanation entry as an iff, in every state |
| `Evidence.PointOrigin` | src/runtime.cpp:59-71 | in every run, recoveries included, the safe point the runtime is at is that of the last known reach, with its identifier, position and capture flag; it lies after a step iff a point was reached since |
| `Evidence.PreemptionIsEarned` | src/runtime.cpp:111-413 | each entry to Preempted in a restore-free run is preceded, since the last accepted request and in order, by the start of quiescing, a full report from the then-current boot with all categories quiet, a capture request, a verified report unless no capture was needed, and a release with nothing reserved. Quiescing began at the point of the last known reach before it, which lies after any given start iff a point was reached since, and after the request if the runtime waited; the last reach before the capture request decided whether to capture. The committed checkpoint is the reported one, which is the one asked for iff it has the store's reference and the store's generation is the expected one, or, where capture was skipped, the one already named at the request. The fenced boot is the one that reported quiescence iff the worker's boot is the same again |
| `Evidence.FenceHolds` | src/runtime.cpp:405-407 | from a commit until a step that makes an attempt authoritative, across rejected recoveries and authority changes that grant nothing: not authoritative, every publication refused, durable progress frozen; the fenced record stays unless the environment rewrites it |
| `Evidence.StepBarred` | src/runtime.cpp:73-87 | short of a grant, an attempt that may not publish may do so again iff the step is a worker incarnation under the very boot that holds authority |
| `Evidence.IncarnationFences` | src/runtime.cpp:691-697 | after a worker incarnation under another boot than the recorded one, in any state, every publication is refused and durable progress frozen until a grant or a return to a boot that holds authority |
| `Evidence.ResumeGrantsNewer` | src/runtime.cpp:494-516 | a resume confirmed behind the fence grants an attempt generation newer than the one on record, and than the fenced one unless the environment rewrote it, strictly unless saturated, bound to the current boot |
| `Evidence.MilestonesOrdered` | src/runtime.cpp:111-535 | resumed <= resume-requested <= preempted <= accepted <= starts + 1, and cancelled history <= accepted |
| `Evidence.OneRequestPerStart` | src/runtime.cpp:122-144 | between two accepted requests an execution is started |
| `Evidence.TerminalAbsorbs` | src/runtime.cpp:518-551 | a terminal state is left iff an execution starts or a request is admitted; with an active request only a start leaves it |
| `Evidence.CompletionAborts` | src/runtime.cpp:537-551 | between a commit and the next start of a restore-free run the lifecycle is Aborted iff completion was called in Preempted, and then for good |
| `Recovery.ExactlyRecoverable` | src/persistence/store.cpp:101-155 | a reachable runtime's own image decodes, to its snapshot, iff it is not releasing resources still held, durable state has a valid checkpoint, no safe point has identifier zero and the payload fits 32 bits |
| `Recovery.OwnImageShows` | src/runtime.cpp:728-777 | the image a runtime saves, byte by byte: every persisted member at its literal offset |
| `Recovery.RecoveredSnapshot` | src/runtime.cpp:728-844 | in every run, from any runtime whose own image is accepted, itself recovered or not, a fresh runtime with the same epoch and policy recovers the snapshot exactly |
| `Recovery.RollbackIsAssessed` | src/runtime.cpp:146-156 | in every run, recovering an accepted own image moves the current position back by exactly the assessed rollback |
| `Recovery.RecoveredGenerationRegresses` | src/runtime.cpp:779-835 | in every run, after recovering an accepted own image the next durable publication takes its generation from the recovering runtime, so it falls below the stored one iff that runtime's next generation does; for a fresh one it is 1 |
| `Recovery.RecoveryRegrants` | src/runtime.cpp:834-844 | every recovery makes the recovered attempt authoritative, in its recovered generations |
| `Recovery.RecoveryKeeps` | src/runtime.cpp:779-835 | what a recovery leaves alone, and the request generation it takes over |
| `Recovery.DeferredImageExists` | src/persistence/store.cpp:101-155 | validation accepts images in Deferred |
| `Bisimulation.RecoveredIsAlike` | src/runtime.cpp:728-835 | in every run and lifecycle state, the runtime recovered from an accepted own image shows the same image, at no safe point |
| `Bisimulation.ObservationDiffers` | src/runtime.cpp:196-300 | the calls that look at the safe point get different replies where one runtime is at a valid point and the other at none |
| `Bisimulation.SplitRunsAgree` | src/runtime.cpp:34-697 | from two worlds that differ in that alone, runs without publication answer alike iff no call looks at the safe point before one is reached |
| `Bisimulation.RecoveryBisimulates` | src/runtime.cpp:728-844 | for every run's accepted own image and any further operations without publication, starts and recoveries included: replies are equal up to a step iff the original was at no safe point or every call that looks at one comes after one is reached anew; the snapshots are then equal |
| `Bisimulation.StalePointDiverges` | src/runtime.cpp:34-49 | a start, its request and a call to begin quiescing tell the two apart: quiescing at once against waiting |
| `Bisimulation.PublicationDiverges` | src/runtime.cpp:73-87 | publication differs: the recovered runtime publishes where the fenced one refuses |
| `Drivers.PreemptionConverges` | src/coordinator/coordinator.cpp:109-150 | from any world that admits the request, the driver ends in Preempted, and is told so, iff the safe point is declared, the current worker is quiet, the capture verifies and the contract can be freed, whether or not a safe point had been reached |
| `Drivers.StaleBoundary` | src/runtime.cpp:34-49 | from any world at a valid safe point the next execution quiesces there at once, at the old point |
| `Drivers.StalePreemption` | src/runtime.cpp:196-413 | an execution that reaches no safe point of its own is preempted at the old one iff the worker is quiet, the capture the old point may demand verifies and the contract can be freed |
| `Drivers.ResumeEnds` | src/coordinator/coordinator.cpp:152-163 | exactly where the resume driver ends from Preempted, and what it is told |
| `Drivers.BlockersTellTheTruth` | src/runtime.cpp:562-582 | in Preempted the resume driver reaches Resumed iff the only report is eligibility or a missing checkpoint; a stale checkpoint is reported iff it fails |
| `Drivers.PreemptThenResume` | src/coordinator/coordinator.cpp:109-163 | a converged preemption resumes at once iff no dependency blocks |
| `Drivers.AssessmentPredicts` | src/runtime.cpp:146-194 | in Assessing, quiescing is immediate iff the assessment does not defer |
| `EndToEnd.DrivenIsRecoverable` | src/coordinator/coordinator.cpp:109-150 | from a reachable healthy world the driver ends reachable and Preempted, and its saved image decodes, to its snapshot, iff the safe points it found have valid identifiers and the payload of that moment fits |
| `EndToEnd.CrashThenResume` | src/coordinator/coordinator.cpp:36-62 | recovered into any environment, under any worker and boot, a healthy preemption resumes, with authority bound to that boot, iff the environment validates its checkpoint and no dependency blocks |
| `EndToEnd.CoordinatorSurvivesRestart` | src/coordinator/coordinator.cpp:36-62 | with the coordinator's own set-up, for every worker, boot and position, the driver preempts and the image decodes; a coordinator restarted with new adapters, that image and any newly registered worker resumes with authority bound to the new boot |
| `Witnesses.CoordinatorDiverges` | src/runtime.cpp:34-49 | a reachable run on which the original and the recovered runtime reply differently |
| `Witnesses.SecondExecutionAtOldPoint` | src/runtime.cpp:34-49 | a reachable world preempted for a second execution at the first one's safe point |
| `Witnesses.CompletedPreemptionIsLost` | src/runtime.cpp:537-551 | a reachable preemption that completion aborts and the resume driver leaves so |
| `Witnesses.UncapturedIsRecoverable` | src/runtime.cpp:279-287 | from any reachable world, a preemption at a no-capture point has an image that decodes iff a checkpoint was already on record and the start could have been stored; while releasing, only if resources were released before |
| `Witnesses.MissingCheckpointResumes` | src/runtime.cpp:562-582 | where no checkpoint was on record such a preemption reports only a missing checkpoint, is rejected by its own image, and resumes |
| `Witnesses.UncapturedCoordinator` | src/persistence/store.cpp:107-123 | from the coordinator's set-up: reachable runtimes in ReleasePending and in Preempted whose own images are rejected, the second resuming all the same |
| `Witnesses.RecoveredRunThrows` | src/runtime.cpp:203-207 | a run that, after restoring an accepted image in Deferred, asks for an illegal edge |
| `Witnesses.AnyReferencePasses` | src/runtime.cpp:302-334 | while capturing, a successful report under the current generation is accepted with any valid reference |
| `Witnesses.ClaimedCheckpointIsCommitted` | src/runtime.cpp:302-413 | from any reachable healthy world a reachable preemption commits to any reference a report claims, whichever the store gave |
| `Witnesses.LateWorkerIsFenced` | src/runtime.cpp:405-407 | from any reachable healthy world, a worker that registers before the release is the one the commit fences, under any boot |
| `Witnesses.GenerationFalls` | src/runtime.cpp:779-835 | a reachable runtime stored at progress generation 2 whose recovered successor publishes generation 1 |
| `RuntimeCode.PreemptionRuntime.constructor` | src/runtime.cpp:30-32 | starts as the fresh runtime of every run |
| `RuntimeCode.PreemptionRuntime.StartExecution` | src/runtime.cpp:34-49 | replaces scope and authority, drops the request, keeps flags and safe point |
| `RuntimeCode.PreemptionRuntime.DeclareSafePoint` | src/runtime.cpp:51-57 | stores the point as declared under its identifier |
| `RuntimeCode.PreemptionRuntime.ReachSafePoint` | src/runtime.cpp:59-71 | the whole new state, or the exception for an unknown point |
| `RuntimeCode.PreemptionRuntime.PublishProgress` | src/runtime.cpp:73-87 | publishes only for the authoritative attempt on its own boot and never below durable progress |
| `RuntimeCode.PreemptionRuntime.ValidateAuthority` | src/runtime.cpp:95-104 | the five checks in one predicate |
| `RuntimeCode.PreemptionRuntime.RequestPreemption` | src/runtime.cpp:111-144 | admission code and new state for every request |
| `RuntimeCode.PreemptionRuntime.Assess` | src/runtime.cpp:146-194 | class and rollback from the state |
| `RuntimeCode.PreemptionRuntime.BeginQuiesce` | src/runtime.cpp:196-233 | the whole new state and reply, the exception from Deferred included |
| `RuntimeCode.PreemptionRuntime.ReportQuiesced` | src/runtime.cpp:242-268 | accepts only a full report of the current boot while quiescing with everything quiet |
| `RuntimeCode.PreemptionRuntime.RequestStateCapture` | src/runtime.cpp:270-300 | skips to release at a no-capture boundary, else asks for the next checkpoint generation |
| `RuntimeCode.PreemptionRuntime.ReportStateCaptured` | src/runtime.cpp:302-334 | durable only for a completed, successful, currently valid capture; failed otherwise |
| `RuntimeCode.PreemptionRuntime.ReleaseLeases` | src/runtime.cpp:354-358 | the loop over the contract's leases |
| `RuntimeCode.PreemptionRuntime.RequestRelease` | src/runtime.cpp:336-362 | releases only from durable state |
| `RuntimeCode.PreemptionRuntime.AllReleased` | src/runtime.cpp:373-382 | the loop finds a held lease iff something is reserved |
| `RuntimeCode.PreemptionRuntime.ReportReleased` | src/runtime.cpp:364-388 | released only with nothing reserved |
| `RuntimeCode.PreemptionRuntime.CommitPreempted` | src/runtime.cpp:390-413 | preempts with all three flags and fences |
| `RuntimeCode.PreemptionRuntime.RequestResume` | src/runtime.cpp:415-432 | from Preempted only, with the next resume generation |
| `RuntimeCode.PreemptionRuntime.Revalidate` | src/runtime.cpp:434-471 | fails on a stale checkpoint, waits on a blocked dependency, else restores |
| `RuntimeCode.PreemptionRuntime.RestoreCheckpoint` | src/runtime.cpp:473-492 | ready only with a current checkpoint |
| `RuntimeCode.PreemptionRuntime.ConfirmResumed` | src/runtime.cpp:494-516 | resumes with fresh authority |
| `RuntimeCode.PreemptionRuntime.Cancel` | src/runtime.cpp:518-535 | cancels any state that is not terminal and records the request |
| `RuntimeCode.PreemptionRuntime.Complete` | src/runtime.cpp:537-551 | aborts outside the resume stages, Preempted included |
| `RuntimeCode.PreemptionRuntime.SetWorkerIncarnation` | src/runtime.cpp:691-697 | new worker and boot, no inherited fence mark |
| `RuntimeCode.PreemptionRuntime.ExplainResumeBlockers` | src/runtime.cpp:562-582 | the list of entries in order |
| `RuntimeCode.PreemptionRuntime.Snapshot` | src/runtime.cpp:728-777 | the durable view of the state |
| `RuntimeCode.PreemptionRuntime.Restore` | src/runtime.cpp:779-835 | the whole new state, with the safe-point map rebuilt by its loop |
| `RuntimeCode.PreemptionRuntime.PersistBytes` | src/runtime.cpp:837-837 | the image of the snapshot |
| `RuntimeCode.PreemptionRuntime.RestoreBytes` | src/runtime.cpp:839-844 | restores exactly the accepted images and changes nothing otherwise |
| `RuntimeCode.RuntimePreemption` | src/coordinator/coordinator.cpp:123-149 | the driver's calls on the real object reach the world of the convergence theorem, and its result is whether the commit reports completion |
| `RuntimeCode.RuntimeResume` | src/coordinator/coordinator.cpp:152-163 | the same for the resume driver |

## Left out

- Sockets, process launching, file save and load, and the coordinator and worker main loops: only the order of calls in the two drivers is used, and the worker's answer in between is an arbitrary report.
- The mutex around each operation and the lazy first-use initialisation of the CRC table: every operation is one atomic step and the table is rebuilt on each call.
- Explanation texts, evidence provenance and enumeration names: replies carry the outcome, the lifecycle state and the generations only.
- Priority-inversion assessment and migration compatibility: single decision ladders over values that nothing else reads.
- Workload, failure and capability adapters, dependency look-up by identifier and `query_capture`: not read by the modelled operations.
- Request fields that the runtime never reads (workload, reason, policy, deadline and so on), and the plan fields of an assessment other than progress and rollback.
- `restore` of a state that did not come from an accepted image: in runs it is reached through `restore_bytes` only; `RuntimeCode.PreemptionRuntime.Restore` covers the call itself.
- The body and record field lists are walked by loops over field tables instead of one call per field; the fields, their order and their widths are the source's.
- Bitwise operations on bytes are arithmetic on numbers: shifts are divisions, disjoint or is addition, and xor is a recursive function on naturals.
- The safe-point map is a sequence in the order of its keys; groups of scalar fields (scope, boundary, progress) are one record-valued field each.
- Memory limits: appending to a buffer never fails.
