# Verification of the MAVLink companion log service

The service copies flight logs off a flight controller (FC) over a lossy MAVLink link, verifies and
catalogues them, and then sends LOG_ERASE, which destroys the originals. This project models that core in
Dafny and proves what the design relies on. `dafny verify dfyconfig.toml` checks everything.

**The transfer engine.** `StreamSession` is the download session as a class: it drains LOG_DATA packets that
may be reordered, repeated, dropped, overlapping or over-long, writes them by offset, and tracks them twice,
as merged byte ranges (`ReceivedRanges`) and as a slot bitmap with CRC fingerprints (`ChunkCoverage`). Its
invariant is that ranges, bitmap, hasher and file are four views (`Transfer`) of one history of accepted
payloads. What the session observes (queue contents, clock, cancel flag, link) is a function of a tick
counter, so every theorem holds for every such world. `Download` states the result for the two callers: on
success against an honest FC the file is the log, byte for byte, and a world that is honest, prompt and in slot shape
leaves the download no way to fail. `GapFill` and `Convergence` say what answered
gap requests achieve, `DeliveryOrder` when the hashed arrival-order stream is the file, `Overlaps` when agreeing
payloads are free of conflicts. `LogDataQueue` is the bounded queue in front of the session.

**The archive and erase protocol.** `ArchiveService` is the service as a state machine whose atomic steps
interleave the main loop, the receive thread (which acts on a state it read earlier), the companion UDP
thread, the FC, disk failures, signals and crashes. Every list of steps is a run. `ArchiveEvents` is the
observer's side: a history of events, and for each event what the design demands of the past, written
without any of the service's variables. `ArchiveSafety` proves by an inductive invariant that every run
leaves a lawful history; `ArchiveGuarantees` draws the consequences: which cause each erase has, that cancel
is never lost, and which logs can be lost. `ArchiveFiles` follows the bytes through renames, evictions, killed
processes and power losses, `ArchiveDisarm` a disarm until a cycle begins, and
`ArchiveCounterexample` holds runs in which a log goes missing.

**Algorithms with a specification of their own.** `Sha256` against `Fips180` (FIPS 180-4), the DataFlash
record walker against a printer, CRC-32, sample offsets, oldest-first eviction and paginated responses.

Where the sources do not do what their documentation promises, the model follows the code, and lemmas give the
input on which the promise fails and the exact condition under which it holds:

- The catalog key is documented as the file's SHA-256. What is hashed is the stream of payloads in arrival order.
  That stream is the file, whatever the log holds, if and only if delivery was in order without repeats
  (`DeliveryOrder.StreamIsLogIff`, `DeliveryOrder.Witness`).
- Overlap detection is meant to catch contradicting payloads. Payloads cut from one and the same log are free of
  conflicts, whatever the log holds, if and only if the aligned payloads of each slot have one length up to a chunk
  (`Overlaps.NoFalseConflictIff`, `Overlaps.FalseConflict`).
- Gap requests are meant to complete a transfer. Two answered rounds cover every byte, one round does so if and
  only if each gap starts on a chunk boundary or lies in one chunk (`GapFill.OneRoundCoversBytesIff`). The session
  then succeeds if and only if every slot also had a payload that started on its boundary and, with overlap
  detection on, the payloads of each slot share a fingerprint (`Convergence.TwoRoundsSucceedIff`); it does so whatever
  the log holds if and only if, besides, they are seen at one length per slot (`Convergence.AlwaysSucceedsIff`).
  `Convergence.CoveredIsNotFinished` and `RetryIsRefused` are the inputs that fail.
- A cycle erases the whole FC. An enumerated log that was never archived itself is gone if and only if it was wiped on
  command, by a cycle whose enumeration missed it, or by a cycle that skipped it on the row of another recording
  (`ArchiveGuarantees.LostIff`, `ArchiveCounterexample.UnlistedLogIsLost` and `TwinIsNowhere`).
- A catalog row is meant to stand for an archived file. Final names have one-second resolution, the clean-up evicts
  files, and the entry of a new day's directory is never synced, so a log can be erased with only a row left
  (`ArchiveCounterexample.ReusedNameLosesLog`, `SkippedLogIsNowhere` and `PowerLossTakesSyncedFile`). When the erase
  goes out, `ArchiveFiles.ErasedLogIsLocated` says which logs are in their files, and `PowerLossMayLeaveIff` what a
  power loss can leave under a name.
- A disarm is meant to lead to a cycle. It stays pending until a cycle begins (`ArchiveDisarm.PendingUntilCycle`). With
  no command waiting, some continuation without further flight events, requests or crashes begins one if and only if
  the main loop is heading for it: in or on its way to the delay, a cycle, a manual download or the clean-up
  (`ArchiveDisarm.DisarmLeadsToCycleIff`). A disarm during a manual refresh leads to none, and neither does the landing
  after a start in flight (`RefreshForgetsDisarm`, `FirstLandingIsForgotten`).

## Model

| member | source | states |
|---|---|---|
| `Download.DownloadLogData` | src/LogDownloader.cpp:402-448 | on success the file is exactly the log, for every log the delivered packets agree with, whatever was reordered, repeated, lost or over-long; the digest is that of the arrival-order stream, and of the log when delivery was in order; the reported probe is the digest of as many bytes of the stream as its length says, or of the whole stream for a negative setting; success is certain when packets are cut from a log in slot shape, nothing cancels and, while bytes are missing, new ones arrive within the timeout |
| `Download.AtOnceIsSmooth` | src/LogDownloader.cpp:402-448 | worlds that meet the condition for certain success exist: the log delivered at once |
| `Download.ProbeAndCompare` | src/LogDownloader.cpp:339-372 | a match means the candidate's digest and length are those of the first bytes that arrived, and of the log itself when they arrived in order |
| `Download.HonestHistoryIsExact` | src/StreamDownloadSession.cpp:38-97 | payloads taken from an honest world that cover the log write exactly the log |
| `StreamSession.StreamDownloadSession.Run` | src/StreamDownloadSession.cpp:148-335 | success: all bytes covered, file is the payloads' image, one fingerprint per slot over the whole session, both digests and the probe length; a failure is always named, an overlap failure means two fingerprints among payloads of the world; passes stay within retry_count + 1 + busy back-offs; a smooth world fails by an overlap or not at all |
| `StreamSession.StreamDownloadSession.ReportComplete` | src/StreamDownloadSession.cpp:313-334 | a session with all bytes covered reports coverage, file, fingerprints and both digests, for negative probe settings too |
| `StreamSession.StreamDownloadSession.RunPasses` | src/StreamDownloadSession.cpp:182-311 | the retry loop terminates lexicographically on attempts and back-offs left, and success means complete coverage |
| `StreamSession.StreamDownloadSession.OnePass` | src/StreamDownloadSession.cpp:184-298 | a pass finishes, fails with a reason, or spends exactly one attempt or one back-off |
| `StreamSession.PassSpendsOne` | src/StreamDownloadSession.cpp:262-292 | back-offs happen only before the first accepted byte and use no retry; an abort always has a reason |
| `StreamSession.StreamDownloadSession.ReceivePass` | src/StreamDownloadSession.cpp:199-255 | the receive loop terminates on (bytes missing, time to the timeout) and keeps the four views in agreement |
| `StreamSession.StreamDownloadSession.TickInStep` | src/StreamDownloadSession.cpp:200-255 | under a smooth world the session has accepted exactly what was delivered, knows the time of the last new byte, and does not time out |
| `StreamSession.SmoothIsOnTime` | src/StreamDownloadSession.cpp:230-252 | in slot shape, a session that is not done and without a conflict misses bytes, so under a prompt world its last new byte is recent |
| `StreamSession.HonestSlotsAgree` | src/StreamDownloadSession.cpp:64-67 | payloads of an honest world in slot shape never conflict, whatever subset and order of them arrives |
| `StreamSession.StreamDownloadSession.Tick` | src/StreamDownloadSession.cpp:200-255 | one iteration: progress never drops, Done only at full coverage, a wait without new bytes brings the timeout nearer |
| `StreamSession.StreamDownloadSession.Decide` | src/StreamDownloadSession.cpp:230-252 | done if and only if the history of payloads succeeds: bytes and slots complete without a conflict; a timeout means not done and no new byte for that long; requests sent ask for missing bytes inside the log only, and none is sent once every byte is there |
| `StreamSession.StreamDownloadSession.ProcessQueuedChunks` | src/StreamDownloadSession.cpp:19-97 | the drained batch extends the history by exactly its clipped payloads, or there was a conflict |
| `StreamSession.StreamDownloadSession.ProcessChunk` | src/StreamDownloadSession.cpp:38-94 | a packet contributes none or one payload clipped to the end of the log, in all four views |
| `StreamSession.StreamDownloadSession.AcceptPiece` | src/StreamDownloadSession.cpp:56-88 | write, record, hash and merge keep the views equal; a refusal means two fingerprints in one slot |
| `StreamSession.StreamDownloadSession.constructor` | src/StreamDownloadSession.cpp:161-173 | a new session has an empty history with all views in agreement |
| `StreamSession.HonestPieceMatches` | src/StreamDownloadSession.cpp:41-54 | clipping a packet that agrees with the log gives a payload that agrees with it |
| `Transfer.CompleteIsExact` | src/StreamDownloadSession.cpp:58-62 | full coverage by matching payloads, in any order and with any overlaps, writes the log exactly |
| `Transfer.ImageMatches` | src/StreamDownloadSession.cpp:58-62 | at every moment each covered offset of the file holds the log's byte and the file is not too long |
| `Transfer.TrackersAgree` | src/StreamDownloadSession.cpp:64-88 | for aligned full-size or end-reaching payloads the ranges denote exactly the union of the received slots |
| `Transfer.CompletionAgrees` | src/StreamDownloadSession.cpp:230-232 | for such payloads the ranges are complete if and only if the bitmap is |
| `Transfer.MatchingSlotsNeverConflict` | src/ChunkCoverageTracker.cpp:67-90 | slot-shaped payloads of one log raise no conflict, and each slot keeps the log's fingerprint |
| `Overlaps.NoFalseConflictIff` | src/ChunkCoverageTracker.cpp:45-90 | payloads of given shapes raise no conflict on any log if and only if the aligned payloads of each slot have one length up to a chunk |
| `Overlaps.FalseConflict` | src/ChunkCoverageTracker.cpp:27-90 | otherwise a log exists from which all payloads are cut and a conflict is counted |
| `Overlaps.NoConflictIffPrintsAgree` | src/ChunkCoverageTracker.cpp:45-90 | a history is free of conflicts if and only if the recorded payloads of each slot share a fingerprint |
| `DeliveryOrder.StreamIsLogIff` | src/StreamDownloadSession.cpp:73-86 | the hashed stream is the log for every content if and only if delivery was in order and repeat-free |
| `DeliveryOrder.Witness` | src/StreamDownloadSession.cpp:73-86 | a log on which any other delivery hashes something else |
| `DeliveryOrder.InOrderStreamIsFile` | src/StreamDownloadSession.cpp:73-86 | in-order repeat-free delivery: stream, file and log coincide |
| `StreamDigests.StreamDigests.Take` | src/StreamDownloadSession.cpp:73-86 | each payload is hashed once, in order, and the probe digest is of the stream's first probe_n bytes however payloads straddle the boundary |
| `StreamDigests.StreamDigests.HashAcross` | src/StreamDownloadSession.cpp:74-82 | the probe digest taken between the two parts is that of the bytes up to the boundary, and the rest is hashed as if nothing happened |
| `StreamDigests.TakeBounds` | src/StreamDownloadSession.cpp:73-74 | the probe subtraction never underflows nor exceeds the payload, 32-bit wrap-around included |
| `StreamDigests.StreamDigests.Finish` | src/StreamDownloadSession.cpp:319-325 | the reported digests are those of the whole stream and of its first probe_n bytes |
| `LogDataQueue.LogDataQueue.OnLogData` | src/LogDownloader.cpp:188-219 | a full queue drops oldest first; empty payloads only count; every arrived packet is queued, delivered once or dropped |
| `LogDataQueue.LogDataQueue.Trim` | src/LogDownloader.cpp:112-117 | keeps exactly the newest packets up to the cap, and accounts for the dropped ones |
| `LogDataQueue.LogDataQueue.Drain` | src/LogDownloader.cpp:83-95 | hands over exactly this log's packets in arrival order and leaves the others in order |
| `LogDataQueue.TakeOut` | src/LogDownloader.cpp:86-93 | the erase-while-iterating loop splits the queue into this log's packets and the rest |
| `LogDataQueue.LogDataQueue.Clear` | src/LogDownloader.cpp:78-81 | empties the queue without losing the account |
| `GapFill.RequestMergedGaps` | src/StreamDownloadSession.cpp:99-131 | exactly one non-empty request per maximal missing interval, asking for missing bytes inside the log only |
| `GapFill.RequestOneGap` | src/StreamDownloadSession.cpp:104-130 | the coalescing loops send exactly one request, up to the end of the gap |
| `GapFill.TwoRoundsCoverBytes` | src/StreamDownloadSession.cpp:99-131 | two fully answered rounds cover every byte, whatever else arrives; the bitmap is a separate matter |
| `GapFill.OneRoundCoversBytesIff` | src/StreamDownloadSession.cpp:109-115 | one answered round covers every byte if and only if every gap starts on a chunk boundary or lies in one chunk |
| `GapFill.LeftoverIsUnaligned` | src/StreamDownloadSession.cpp:109-115 | what a round does not ask for contains no chunk boundary |
| `Convergence.FinishedIff` | src/StreamDownloadSession.cpp:230-235 | the exit test holds if and only if every byte is covered and every slot had a payload that started on its boundary |
| `Convergence.TwoRoundsSucceedIff` | src/StreamDownloadSession.cpp:200-245 | after two fully answered rounds the session succeeds if and only if every slot had a payload that started on its boundary and, with detection on, the payloads of each slot share a fingerprint |
| `Convergence.TwoRoundsSucceedSlots` | src/StreamDownloadSession.cpp:200-245 | two fully answered rounds make a session succeed whose payloads are slot-shaped and cut from one log |
| `Convergence.SucceedsIff` | src/StreamDownloadSession.cpp:200-235 | a session succeeds if and only if every byte is covered, every slot was started on its boundary and, with detection on, fingerprints agree |
| `Convergence.AlwaysSucceedsIff` | src/StreamDownloadSession.cpp:200-235 | payloads of given shapes make a session succeed whatever log they are cut from, if and only if they cover every byte, start every slot and, with detection on, are seen at one length per slot |
| `Convergence.RetryIsRefused` | src/StreamDownloadSession.cpp:193-206 | a log on which answered gap requests and then the whole retry stream cover every byte and start every slot, all agreeing with the log, and the session is stopped as a conflict |
| `Convergence.CoveredIsNotFinished` | src/StreamDownloadSession.cpp:99-131 | a payload off the chunk grid and the exact answers to its gap requests cover every byte of the log and leave the session unfinished |
| `ReceivedRanges.ReceivedRanges.Add` | src/ReceivedRanges.cpp:11-17 | the denoted set grows by exactly the interval, and the list stays sorted, disjoint and non-touching |
| `ReceivedRanges.ReceivedRanges.Merge` | src/ReceivedRanges.cpp:46-62 | normalises any list of non-empty ranges without changing the set |
| `ReceivedRanges.ReceivedRanges.MergeSorted` | src/ReceivedRanges.cpp:51-61 | the merging loop over a sorted list yields the canonical list of the same set |
| `ReceivedRanges.CanonicalUnique` | src/ReceivedRanges.cpp:46-62 | a set has one canonical list only, so the order of additions never shows |
| `ReceivedRanges.CanonicalPairs` | src/ReceivedRanges.cpp:46-62 | canonical means non-empty ranges with at least one byte between any two, in order |
| `ReceivedRanges.ReceivedRanges.Complete` | src/ReceivedRanges.cpp:19-21 | inside the log: complete if and only if nothing is missing; in general, if and only if the set is a prefix reaching the total |
| `ReceivedRanges.ReceivedRanges.BytesReceived` | src/ReceivedRanges.cpp:38-44 | the number of distinct bytes |
| `ReceivedRanges.ReceivedRanges.Gaps` | src/ReceivedRanges.cpp:23-36 | exactly the maximal missing intervals |
| `ChunkCoverage.ChunkCoverageTracker.Record` | src/ChunkCoverageTracker.cpp:45-65 | bitmap, counter, first fingerprints and conflict count are those of the recorded history; aligned payloads inside the log are recorded, others ignored |
| `ChunkCoverage.ChunkCoverageTracker.MarkSlot` | src/ChunkCoverageTracker.cpp:67-90 | each slot keeps its first fingerprint, each later different one counts as a conflict |
| `ChunkCoverage.ChunkCoverageTracker.AllSlotsReceived` | src/ChunkCoverageTracker.cpp:92-97 | true if and only if every slot was recorded |
| `ChunkCoverage.BitmapSetTest` | src/ChunkCoverageTracker.cpp:13-25 | setting one slot's bit changes that slot's test and no other's |
| `ChunkCoverage.NoConflictIffOnePrint` | src/ChunkCoverageTracker.cpp:67-90 | with detection on, no conflict is counted if and only if no slot saw two fingerprints |
| `ChunkCoverage.FingerprintCollision` | src/ChunkCoverageTracker.cpp:27-35 | payloads that differ in one padded byte share a fingerprint if and only if their CRCs are 0 and 1 |
| `ChunkCoverage.FingerprintForSlot` | src/ChunkCoverageTracker.cpp:27-35 | never the empty marker 0; 1 exactly for the CRCs 0 and 1, and otherwise the CRC itself |
| `ChunkCoverage.PrintSeesPadding` | src/ChunkCoverageTracker.cpp:28-33 | zero bytes missing at the end of a payload, and anything beyond a chunk, do not show in the fingerprint |
| `Crc32.ComputeCrc32` | src/Crc32.cpp:5-15 | the byte and bit loops compute the register fold |
| `Crc32.CrcStreams` | src/Crc32.cpp:5-15 | continuing from a CRC is the CRC of the concatenation |
| `Crc32.BitStepBijective` | src/Crc32.cpp:9-12 | each bit step has an inverse |
| `Crc32.CrcSeparates` | src/Crc32.cpp:5-15 | equal-length buffers that differ in exactly one byte never share a CRC |
| `MavlinkLog.ChunkCountForSize` | include/mcls/MavlinkLogProtocol.hpp:22-28 | the least number of chunks that holds the size |
| `MavlinkLog.AlignDownToChunk` | include/mcls/MavlinkLogProtocol.hpp:13-16 | the last chunk boundary at or before the offset |
| `Sha256.Sha256.HashPieces` | src/Sha256.cpp:66-78 | however a message is split into updates, the digest is the FIPS 180-4 digest of the whole |
| `Sha256.Sha256.HashHex` | src/Sha256.cpp:168-172 | the one-shot form yields the FIPS 180-4 digest |
| `Sha256.Sha256.constructor` | src/Sha256.cpp:61-64 | the initial hash value of section 5.3.3, nothing fed |
| `Sha256.Sha256.Update` | src/Sha256.cpp:66-78 | the state is the chaining value of all whole blocks fed, the buffer the rest; a finalized context is refused unchanged |
| `Sha256.Sha256.Clone` | src/Sha256.cpp:84-92 | an independent hasher over the same bytes |
| `Sha256.Sha256.FinalizeHex` | src/Sha256.cpp:158-166 | the hex digest of everything fed, for any length; a second call is refused |
| `Sha256.Sha256.PadAndFinalize` | src/Sha256.cpp:135-156 | marker, zeros, length and remaining blocks give the digest of section 6.2.2 |
| `Sha256.Sha256.PadOneAndZeros` | src/Sha256.cpp:137-143 | the loop terminates having fed the padding of section 5.1.1 |
| `Sha256.PadBlocks` | src/Sha256.cpp:135-148 | finalizing adds exactly one or two blocks, and when which |
| `Sha256.PadInjective` | src/Sha256.cpp:135-148 | different messages have different paddings |
| `Sha256.LengthField` | src/Sha256.cpp:136-148 | the wrapping 64-bit counter still yields the length field |
| `Sha256.Transform` | src/Sha256.cpp:94-133 | the array loops compute one compression of section 6.2.2 |
| `Sha256.IsHexDigestMeans` | src/Sha256.cpp:158-166 | the digest relation used throughout is equality with the hex text of the FIPS 180-4 digest |
| `Sha256.ToHexInjective` | src/Sha256.cpp:50-57 | equal hex texts mean equal digests |
| `DataFlash.CleanIffPrinted` | src/DataFlashValidator.cpp:22-97 | accepted without resync or bad message if and only if the bytes are a printed well-formed log plus at most two bytes; the records are unique and the scanned count is their length |
| `DataFlash.PrintedIsClean` | src/DataFlashValidator.cpp:33-96 | every printed log is accepted cleanly with all its bytes scanned |
| `DataFlash.CleanIsPrinted` | src/DataFlashValidator.cpp:33-96 | every clean acceptance decodes to records of types already defined |
| `DataFlash.EveryByteAccounted` | src/DataFlashValidator.cpp:33-96 | at every exit record bytes, resyncs and short-length skips add up to the final position |
| `DataFlash.ValidateBytes` | src/DataFlashValidator.cpp:22-97 | the loop computes the walk of the specification, for every buffer and every error exit |
| `Storage.EnforceStorageLimit` | src/StorageManager.cpp:125-166 | the rest is within the limit, no kept file is older than a removed one, and putting the last removed file back would exceed the limit |
| `Storage.CountEvicted` | src/StorageManager.cpp:158-165 | the deletion loop stops at the shortest sufficient oldest-first prefix |
| `Storage.CleanupPartials` | src/StorageManager.cpp:35-45 | the restart removes exactly the names with the partial extension |
| `Storage.OnlyPartialsMatch` | src/StorageManager.cpp:35-45 | every temporary name is recognised and no final archive name is |
| `Paging.BuildFcLogsPage` | src/DroneLogService.cpp:570-590 | the window of the cached list, clipped on both sides |
| `Paging.BuildFcLogs` | src/CompanionProtocol.cpp:179-218 | the full page, else the largest halving that fits, else an error |
| `Paging.RespondKeepsOne` | src/CompanionProtocol.cpp:205-214 | if one-entry pages fit, a non-empty request gets a non-empty prefix |
| `Paging.PagingIsLossless` | src/CompanionProtocol.cpp:179-218 | a client that advances by what it got sees the rest of the list exactly once, in order |
| `SampleOffsets.BuildFcSampleOffsets` | src/FcSampleOffsets.cpp:57-98 | strictly increasing whole chunks of the file, at most the wanted number, starting with 0; each usable anchor is there unless smaller offsets filled the list |
| `SampleOffsets.AddAnchors` | src/FcSampleOffsets.cpp:69-79 | every anchor that leaves a whole chunk is included, the wrapping one too, and nothing but aligned anchors gets in |
| `SampleOffsets.FillFrom` | src/FcSampleOffsets.cpp:81-91 | the result is exactly the anchors and the first draws, all whole chunks; the loop stops when there are enough or after twenty draws per missing sample |
| `SampleOffsets.NeverZero` | src/FcSampleOffsets.cpp:36-41 | from a non-zero seed the generator never reaches its fixed point 0 |
| `SampleOffsets.SeedFromParams` | src/FcSampleOffsets.cpp:11-34 | the id, the size and the digest bytes mixed in order, with 1 in place of 0 |
| `ArchiveSafety.EveryRunIsLawful` | src/DroneLogService.cpp:289-469 | in every interleaved run, with crashes at any step, each event meets what the design demands of its past |
| `ArchiveSafety.MainSafe` | src/DroneLogService.cpp:289-469 | every main-loop step keeps the flag, phase, erase, pipeline and history invariants |
| `ArchiveSafety.RxSafe` | src/DroneLogService.cpp:154-185 | so does the receive thread although it acts on a stale state |
| `ArchiveSafety.UdpSafe` | src/DroneLogService.cpp:592-686 | so does the companion thread, erase override included |
| `ArchiveSafety.CommandSafe` | src/DroneLogService.cpp:688-746 | so does draining commands in any order between the phases |
| `ArchiveSafety.FinishControl` | src/DroneLogService.cpp:345-372 | an archive step leads to the erase phase only with a non-empty list, all of it archived and none cancelled |
| `ArchiveSafety.FinalizePipeline` | src/StorageManager.cpp:65-106 | a temporary file is renamed only after it was written and fsynced, and it is not written again |
| `ArchiveSafety.CatalogPipeline` | src/LogDownloader.cpp:631-660 | a row is inserted only for a log whose own temporary file was fsynced and renamed and whose name still holds it |
| `ArchiveSafety.WorkBeforePipeline` | src/LogDownloader.cpp:529-564 | a log is skipped only on a catalogued row with its id, size and probe digest |
| `ArchiveGuarantees.EveryEraseHasItsCause` | src/DroneLogService.cpp:345-443 | each LOG_ERASE follows a popped erase command with no erase in between, or a clean Archive step with no other archive, enumeration, eviction, erase, reset or crash since, and no cancel from the cycle's reset to its check |
| `ArchiveGuarantees.CycleErasesOnce` | src/DroneLogService.cpp:373-384 | an Archive step causes at most one erase |
| `ArchiveGuarantees.CommandErasesOnce` | src/DroneLogService.cpp:431-443 | an erase command causes at most one erase |
| `ArchiveGuarantees.CancelIsNeverLost` | src/DroneLogService.cpp:328-384 | a cancel raised by any thread after a cycle's reset and before its check: no automatic erase goes out before the next cycle begins, whatever commands are drained and whatever crashes happen in between |
| `ArchiveGuarantees.ErasedCycleIsCatalogued` | src/LogDownloader.cpp:662-708 | downloaded and skipped add up to the enumeration, each log was inserted or matched in this very cycle, and ever after has a catalog key |
| `ArchiveGuarantees.CatalogGrows` | src/Database.cpp:97-127 | the key set never shrinks |
| `ArchiveGuarantees.LostIff` | src/LogDownloader.cpp:246-327 | after any run a log that was enumerated and never archived itself is gone from the FC if and only if it was wiped on command, by a cycle whose enumeration did not list it, or by a cycle that skipped it on a row made from another recording |
| `ArchiveGuarantees.CauseCovers` | src/LogDownloader.cpp:662-708 | while an archive step is unspent every log of the last enumeration was archived or skipped on another recording's row |
| `ArchiveFiles.FileHoldsIff` | src/StorageManager.cpp:65-123 | after any run a final name holds a log if and only if the last rename to it brought that log, or the last power loss left it there, whichever is later, and it was not evicted since |
| `ArchiveFiles.ErasedLogIsLocated` | src/LogDownloader.cpp:529-708 | when an automatic erase goes out, every log of the cycle is accounted for: downloaded ones by their file and later renames to its name, skipped ones by what their row's name held at the match and later renames to it |
| `ArchiveFiles.StoredSince` | src/LogDownloader.cpp:631-660 | since a log was catalogued in this cycle, its name holds what the last later rename brought, or the log if there was none |
| `ArchiveFiles.MatchedSince` | src/LogDownloader.cpp:537-549 | since a log was skipped in this cycle, its row's name holds what the last later rename brought, or what it held at the match if there was none |
| `ArchiveFiles.LocatedMeans` | src/LogDownloader.cpp:529-660 | a downloaded log is in its file if and only if the last later rename brought no other log; a skipped one is in its row's file if and only if the last such rename brought it, or there was none and the name held this very recording |
| `ArchiveFiles.PowerLossMayLeaveIff` | src/StorageManager.cpp:83-110 | a power loss can leave a content under a name if and only if the name held it since its directory was last synced or power was last lost, or it is nothing and the directory was created since power was last lost; killed processes change neither |
| `ArchiveCounterexample.UnlistedLogIsLost` | src/DroneLogService.cpp:345-384 | a concrete run in which a listed log is erased without an erase command and without being archived |
| `ArchiveCounterexample.ReusedNameLosesLog` | src/StorageManager.cpp:88-103 | a run in which two logs of a cycle are finalized in one second and the erase leaves the first with a row only |
| `ArchiveCounterexample.SkippedLogIsNowhere` | src/LogDownloader.cpp:537-549 | a run in which a log is skipped on a row whose file was evicted, and then erased |
| `ArchiveCounterexample.PowerLossTakesSyncedFile` | src/StorageManager.cpp:83-110 | a run after whose erase a power loss takes a file although its directory was fsynced |
| `ArchiveCounterexample.TwinIsNowhere` | src/LogDownloader.cpp:329-372 | a run in which a new recording with the id, size and probe of a catalogued one is listed, skipped and erased, and no file ever holds it |
| `ArchiveDisarm.PendingUntilCycle` | src/DroneLogService.cpp:164-173 | without a crash a pending disarm stays pending until the main loop begins a cycle |
| `ArchiveDisarm.DisarmLeadsToCycleIff` | src/DroneLogService.cpp:289-469 | after any run with a disarm pending and no command waiting, some continuation without flight events, requests or crashes begins a cycle if and only if the main loop is heading for one, and then the main loop alone can do it |
| `ArchiveDisarm.AstrayForever` | src/DroneLogService.cpp:289-469 | from anywhere else no such continuation ever begins a cycle, however long the loop runs |
| `ArchiveDisarm.CommittedUntilCycle` | src/DroneLogService.cpp:289-469 | once committed, no such continuation leads elsewhere before the cycle begins |
| `ArchiveDisarm.FromWorking` | src/LogDownloader.cpp:662-708 | a job at any stage can be brought to an end by the main loop alone, and the cycle after it to its beginning |
| `ArchiveDisarm.RefreshForgetsDisarm` | src/DroneLogService.cpp:386-393 | a run in which the vehicle arms after a refresh is accepted and disarms during it: the disarm stays pending and no undisturbed continuation begins a cycle |
| `ArchiveDisarm.FirstLandingIsForgotten` | src/DroneLogService.cpp:164-173 | a run without any job: the service starts in flight, sees the landing while waiting for an arm, and no undisturbed continuation begins a cycle |

## Left out

- The service is modelled on values, one function per atomic step, because its point is the interleaving of threads; update in place and aliasing inside the service object are not captured there.
- Of the flight monitor only the armed state is modelled: its first heartbeat and its changes. Link-lost and link-restored events on the receive thread are not; the main loop's own connection handling is modelled.
- The video recorder, transports, MAVLink framing, UDP server, JSON, TOML, SQLite, logging and statistics.
- File write errors during a download: the sources do not check them, the model lets writes succeed; opening, verifying, fsync and rename may fail.
- The floating-point resync ratio, the sample re-read itself, and the stricter checks after a download (`verify_after_download` follows from complete coverage).
- Failures to create a day's directory, which end the process in the sources.
- Wall-clock time: a session's clock advances by at least one millisecond per iteration, final names are arbitrary numbers that may repeat.
- Sizes of 2^31 bytes or more, and transfers that do not start at offset 0, which no caller makes.
- How an enumeration is collected, sorted and made unique: it is any list of logs that are on the FC.
- Durability of the catalog: an inserted row survives every crash, as SQLite commits promise.
- Deleting a failed download's temporary file: temporary files are only tracked by what was written, fsynced and renamed.
- Download.ProbeAndCompare: takes a non-negative `probe_bytes`; a negative one makes the sources ask for 2^31 bytes or more, which is outside the modelled sizes.
- StreamSession.StreamDownloadSession.Run: for a negative `probe_bytes` the probe digest is stated while the hashed stream is below 2^32 bytes, because the 32-bit counter may then wrap past the boundary.
- SampleOffsets.FillFrom: the loop bound does not model signed overflow for sample counts above 100 million.
- Crc32.CrcSeparates: single-byte differences only; longer error bursts are not covered.
