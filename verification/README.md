# Live migration of Firecracker microVMs: a verified model

This project models the core of a live-migration system for Firecracker microVMs and proves its central promises for
all inputs and all runs.

* **Pre-copy engine** (`DirtyTracking`, `DirtyDump`, `DumpRefinement`, `Drain`, `RoundLoop`, `Convergence`): dirty-page
  bookkeeping of the patched VMM as a transition system with word-by-word reads, the dump functions as methods over
  bitmaps that refine it for every interleaving of guest writes, the agent's round loop, and convergence of the drain.
* **Two-host protocol** (`Migration`, `MigrationSafety`, `MigrationTheorems`, `MigrationExclusion`, `MigrationProgress`,
  `MigrationWitness`, `AgentState`): source driver, target handlers, guests, crashes and failed calls as one transition
  system; the data invariant and exclusive execution over every run; that every migration under way can succeed; the
  handlers as methods on mutable slots tied to the transition system's functions.
* **Wire format** (`Bytes`, `BurstAlgebra`, `Crc32`, `WireFormat`, `CrcStream`, `SparseFile`, `SparseCodec`,
  `SparseTransfer`): extent walk, encoder, in-place decoder, CRC-32, and what a transfer does to the destination.
* **Self-verifying page** (`Keystream`, `KeystreamVector`, `ScribblePage`, `Scribbling`): splitmix64 and tear detection.
* **Smaller cores** (`Throttle`, `Probe`, `Pacer`): duty cyclers, run-length statistics, pacing arithmetic.

Main results: `MigrationTheorems.SuccessMovesTheMachine`, `DirtyTracking.CoverageRun`,
`MigrationTheorems.BaseImageIsTracked`, `MigrationExclusion.NeverBothRun` and `MigrationExclusion.MigrationEnds`
with `MigrationWitness.DoubleExecutionExists`, `MigrationProgress.MigrationCanFinish` with
`MigrationWitness.MigrationSucceeds` and `MigrationWitness.AbortedMigrationSucceeds`, `DumpRefinement.DumpRefines`,
`DirtyDump.GuestMemoryMmap.CreateSnapshotLive`, `ScribblePage.MixDetected` and
`ScribblePage.CutDetected`, `CrcStream.BurstRejected`, `SparseTransfer.TransferWith`,
`Convergence.BoundedRateEndsPrecopy`, `RoundLoop.PrecopyRounds` with `RoundLoop.OutcomeUnique`,
`Throttle.AllReturnedAllRun` with `Throttle.ThrottlingWorks`, `Pacer.PaceIffNoOverflow`.

## Assumptions

* Every memory file has the size of guest memory; a word is whatever the guest writes atomically.
* A restored VM maps the received file privately, so its later writes do not reach `recv.mem`.
* The data map of a diff file is exactly the set of dumped pages (`SparseTransfer.DiffFile`); a coarser hole granularity
  would send the zeros of holes as data.
* Queue pages are marked when devices are activated; device-model writes run on the thread that runs the dump.
* Source and target are different agents, and migrations of one VM ID do not overlap.
* A killed process stops at once; a fresh VM is booted under an ID only when no machine with that ID is alive.
* A finalize call that took effect can be reported as failed in two ways: the VMM's answer to its agent does not arrive
  (`Migration.LoadReportedFailed`), or the agent's reply is lost (`Migration.LoseReply`).  The exclusive-execution
  theorems allow the first if the abort then reaches the target, and exclude the second;
  `MigrationWitness.DoubleExecutionExists` shows that they must.
* Clocks do not run backwards; a sleep lasts at least as long as asked.

## Where code and comments disagree

The model follows the code.

* The KVM log is fetched in every live round (patch lines 623-632), although the repository README.md:34-36 says
  that draining the backlog needs no fetch.
* A successful live dump resets the VMM bitmap and marks only the leftover (patch lines 399-404), although
  internal/fcapi/client.go:22 and docs/architecture.md:51 say that the bookkeeping is kept.
* The comment that a torn page never verifies (cmd/guestd/main.go:196-197) holds up to equality: a tear that happens to
  equal a written page verifies, and `ScribblePage.MixDetected` and `ScribblePage.CutDetected` say that nothing else does.
* The pacing limit stops working beyond 9,223,372,036 bytes on one writer (`Pacer.FirstOverflow`).

## Model

| member | source | states |
|---|---|---|
| `DirtyTracking.CoverageStep` | patches/0001-vmm-add-DiffLive-snapshot-type-for-live-migration-pr.patch:358-414 | every step (guest, device and queue writes, log fetch, word reads, finished and over-budget pages, success, failure) keeps: a word stale in the outside copy lies on a page that is in the KVM log, not yet dumped, left over, or in the VMM bitmap; during a dump both for the case that it succeeds and for the case that it fails |
| `DirtyTracking.WfStep` | patches/0001-vmm-add-DiffLive-snapshot-type-for-live-migration-pr.patch:176-177 | queue pages stay inside the VMM bitmap; a word torn by a racing guest write is on a logged page; a paused dump sees no new log entries and no leftover |
| `DirtyTracking.CoverageRun` | patches/0001-vmm-add-DiffLive-snapshot-type-for-live-migration-pr.patch:611-633 | coverage over every finite interleaving in which no log fetch fails half way, torn reads, budget splits and failed dumps included |
| `DirtyTracking.FetchErrExact` | patches/0001-vmm-add-DiffLive-snapshot-type-for-live-migration-pr.patch:630-632 | a log fetch that fails half way keeps coverage if and only if no lost page holds a stale word that the VMM bitmap does not mark |
| `DirtyTracking.CoverageFromFull` | patches/0001-vmm-add-DiffLive-snapshot-type-for-live-migration-pr.patch:634-636 | whatever happened before, half-failed fetches included, a full snapshot restores coverage, and it is kept from there until a fetch fails half way |
| `DirtyTracking.FullCovers` | patches/0001-vmm-add-DiffLive-snapshot-type-for-live-migration-pr.patch:634-636 | after a full snapshot the image covers memory, whatever the marks were before |
| `DirtyTracking.PausedDumpIsExact` | patches/0001-vmm-add-DiffLive-snapshot-type-for-live-migration-pr.patch:350-356 | a completed dump of a paused VM makes the outside copy equal to memory, word for word |
| `DirtyTracking.DumpAccounting` | patches/0001-vmm-add-DiffLive-snapshot-type-for-live-migration-pr.patch:284-300 | in every interleaving inside a dump, finished and over-budget pages are disjoint, come out of the dirty set, and account for all that left it |
| `DirtyTracking.DumpCallSplits` | patches/0001-vmm-add-DiffLive-snapshot-type-for-live-migration-pr.patch:398-411 | from fetch to return: success splits KVM log plus VMM bitmap exactly into dumped and leftover and leaves leftover plus queue pages marked; failure leaves everything marked |
| `DumpRefinement.FollowsRuns` | patches/0001-vmm-add-DiffLive-snapshot-type-for-live-migration-pr.patch:372-380 | the code's page order interleaved with any guest writes is a run of the transition system, with exactly those writes, captured words and leftover pages |
| `DumpRefinement.DumpRefines` | patches/0001-vmm-add-DiffLive-snapshot-type-for-live-migration-pr.patch:398-404 | for every such interleaving, live or paused, the whole call from fetch to success is a run: the bitmap ends as leftover plus queues, the KVM log as the pages written meanwhile, the copy gets every dumped word as last read |
| `DumpRefinement.FailedDumpRefines` | patches/0001-vmm-add-DiffLive-snapshot-type-for-live-migration-pr.patch:405-410 | wherever a dump fails, the call is a run that leaves everything that was dirty marked, the later writes in the KVM log, and the copy alone |
| `DumpRefinement.PausedDumpRefines` | patches/0001-vmm-add-DiffLive-snapshot-type-for-live-migration-pr.patch:350-356 | the dump of a paused VM is a run that clears both logs (queues apart) and copies memory on exactly the dirty pages |
| `DumpRefinement.CaptureIsDumped` | patches/0001-vmm-add-DiffLive-snapshot-type-for-live-migration-pr.patch:372-380 | exactly the words of the dumped pages are captured |
| `DumpRefinement.StaleIsWritten` | patches/0001-vmm-add-DiffLive-snapshot-type-for-live-migration-pr.patch:374-379 | a captured word that is stale when the dump ends lies on a page written meanwhile, hence logged again |
| `DumpRefinement.ScheduleExists` | patches/0001-vmm-add-DiffLive-snapshot-type-for-live-migration-pr.patch:270-300 | for every dirty list and cut the code has a schedule |
| `DumpRefinement.LiveDumpRuns` | patches/0001-vmm-add-DiffLive-snapshot-type-for-live-migration-pr.patch:381-414 | dump_dirty_live as a method: it succeeds exactly if every plugged slot has a log and the writer takes what the budget lets through, and for every interleaving of guest writes the bitmap it leaves is that of the run, on success and on failure |
| `DumpRefinement.PausedDumpRuns` | patches/0001-vmm-add-DiffLive-snapshot-type-for-live-migration-pr.patch:350-356 | the same for dump_dirty, the final Diff, which needs room for every dirty page |
| `DirtyDump.DumpDirtyBudgeted` | patches/0001-vmm-add-DiffLive-snapshot-type-for-live-migration-pr.patch:270-300 | the slot's dirty list (either bitmap, ascending) is cut greedily at the budget: a prefix is dumped in order, leftover holds exactly the bits of the rest, remaining is what the budget has left; it fails exactly if the writer has no room for what the budget lets through |
| `DirtyDump.DumpBit` | patches/0001-vmm-add-DiffLive-snapshot-type-for-live-migration-pr.patch:284-300 | one page keeps that cut: clean, over budget and recorded, or dumped and charged; only a write without room fails |
| `DirtyDump.GuestMemoryMmap.DumpDirtyPages` | patches/0001-vmm-add-DiffLive-snapshot-type-for-live-migration-pr.patch:443-479 | all slots share one budget: the same greedy cut of the concatenated dirty list; success if and only if every plugged slot is in the log and the writer has room for what the budget lets through |
| `DirtyDump.GuestMemoryMmap.DumpSlot` | patches/0001-vmm-add-DiffLive-snapshot-type-for-live-migration-pr.patch:460-474 | one slot extends the cut, or fails exactly if its log is missing or the writer runs out of room; unplugged slots contribute nothing |
| `DirtyDump.CutConcat` | patches/0001-vmm-add-DiffLive-snapshot-type-for-live-migration-pr.patch:463-473 | two greedy cuts that share a budget are one greedy cut, and once the first leaves pages over the second dumps none |
| `DirtyDump.CutIsNeed` | patches/0001-vmm-add-DiffLive-snapshot-type-for-live-migration-pr.patch:284-300 | a greedy cut lets exactly min(dirty, budget / page size) pages through, so an exhausted budget is never a failure |
| `DirtyDump.GuestMemoryMmap.DirtyIsUnion` | patches/0001-vmm-add-DiffLive-snapshot-type-for-live-migration-pr.patch:284-284 | the dump list is the union of both bitmaps |
| `DirtyDump.GuestMemoryMmap.DumpDirty` | patches/0001-vmm-add-DiffLive-snapshot-type-for-live-migration-pr.patch:350-356 | without a budget: success, exactly if the log is complete and the writer has room for every dirty page, dumps the whole union and clears the bitmap; failure merges the fetched log back |
| `DirtyDump.GuestMemoryMmap.DumpDirtyLive` | patches/0001-vmm-add-DiffLive-snapshot-type-for-live-migration-pr.patch:381-414 | success if and only if the log is complete and the writer has room for min(dirty, budget / page size) pages, whether or not the budget is spent; it dumps exactly that prefix and leaves exactly the rest marked; failure leaves the union marked |
| `DirtyDump.GuestMemoryMmap.CreateSnapshotLive` | patches/0001-vmm-add-DiffLive-snapshot-type-for-live-migration-pr.patch:611-633 | a live round is written if and only if dirty tracking is on, the log was fetched for every slot and the writer has room for what the budget lets through; it dumps exactly that many pages; dumped plus marked pages are what was marked or fetched plus the queue pages, overlapping only on queue pages; each failure leaves every mark |
| `DirtyDump.GuestMemoryMmap.DirtyBacklogBytes` | patches/0001-vmm-add-DiffLive-snapshot-type-for-live-migration-pr.patch:416-429 | page size times the number of marked pages |
| `DirtyDump.UnderBudgetMeansDrained` | internal/agent/migrate.go:228-230 | a round that reports fewer bytes than its budget has an empty leftover, for every dirty set, if and only if the page size divides the budget |
| `Drain.FitsIsMin` | patches/0001-vmm-add-DiffLive-snapshot-type-for-live-migration-pr.patch:286-297 | the greedy cut dumps min(dirty, budget / page size) pages, and only that number satisfies it |
| `Drain.DrainBound` | patches/0001-vmm-add-DiffLive-snapshot-type-for-live-migration-pr.patch:623-632 | if each round brings at most d pages, queue pages included, the backlog after k rounds is at most max(0, L0 - k(b - d)) |
| `Drain.DrainEnds` | internal/agent/migrate.go:228-243 | so from the first k with k(b - d) >= L0 on, a round dumps at most d pages, below budget, and leaves nothing over |
| `Convergence.BoundedRateEndsPrecopy` | internal/agent/migrate.go:203-247 | in a live run whose rounds bring at most d < b pages, no round from that k on fills its budget or escalates the throttle, and if d pages are within the convergence threshold the loop ends by round k + 1, not at the cap |
| `Drain.OutrunNeverDrains` | internal/agent/migrate.go:228-240 | if every round brings at least b pages outside the backlog, every round is full and the backlog never shrinks below its start |
| `Drain.LiveDumpIsRound` | patches/0001-vmm-add-DiffLive-snapshot-type-for-live-migration-pr.patch:381-404 | the bitmap code's live dump is such a round |
| `RoundLoop.PrecopyRounds` | internal/agent/migrate.go:188-266 | the loop stops at the first round that is small, or twice plateaued and not large, and at no other, within the cap; its log holds rounds in order with their own clock readings; live: full rounds only, after the honest drain time, two seconds apart, none missed below the highest level; stock: the first five large plateaus |
| `RoundLoop.OutcomeUnique` | internal/agent/migrate.go:203-266 | that determines everything: for given inputs there is one number of rounds, one log, one exit |
| `RoundLoop.ShrinkingNeverThrottles` | internal/agent/migrate.go:245-265 | a stock migration whose rounds each shrink to nine tenths or less never throttles and never stops as stable |
| `RoundLoop.StubbornIsThrottled` | internal/agent/migrate.go:245-265 | a stock migration whose rounds stay above 4 MiB and above nine tenths of the one before goes through all 8 rounds and throttles in rounds 1 to 5 |
| `RoundLoop.LiveThrottlesAfterDrain` | internal/agent/migrate.go:188-243 | a live migration throttles only in rounds of 2 MiB or more later than twice the time the guest memory takes at 60 MiB/s, and it throttles in the first such round |
| `RoundLoop.FullRound` | internal/agent/migrate.go:230-243 | the full-budget branch keeps the loop invariant, log included |
| `RoundLoop.PartialRound` | internal/agent/migrate.go:245-265 | the rest of the body keeps the loop invariant or stops at a stable round |
| `MigrationSafety.EnvKeepsData` | internal/agent/vm.go:151-210 | guest writes, crashes, deletions and every step of boot keep the two-host data invariant |
| `MigrationSafety.DriverKeepsData` | internal/agent/migrate.go:122-303 | every step of migrate, successful, failed or partially effective, keeps the data invariant |
| `MigrationTheorems.RunKeepsData` | internal/agent/migrate.go:109-311 | the data invariant holds in every world of every run: boots, migrations both ways, aborts, resyncs, lost replies |
| `MigrationTheorems.BaseImageIsTracked` | internal/agent/vm.go:76-85 | a running VM that needs no resync has a base image that differs from its memory only on marked pages |
| `MigrationTheorems.TargetLoadsSourceMemory` | internal/agent/migrate.go:277-303 | in every run, the machine the target starts has the source's memory, device state and queue placement as of the final paused Diff |
| `MigrationTheorems.SuccessMovesTheMachine` | internal/agent/migrate.go:122-143 | if migrate succeeds, its final paused Diff and the target's load happened, in this order, and the machine started is the source's as of that Diff |
| `MigrationExclusion.NeverBothRun` | internal/agent/migrate.go:281-303 | source and target vCPUs never run at once in a run that loses no finalize reply and whose aborts, after a load that took effect but was reported as failed, reach the target |
| `MigrationExclusion.RunKeepsExcl` | internal/agent/receive.go:106-151 | the invariant behind it: at most one live machine outside the handover, no machine on a prepared target before the load, the source held from the final pause on |
| `MigrationExclusion.MigrationEnds` | internal/agent/migrate.go:122-143 | a migration ends in target running and source gone; or in source resumed, or dead if resume failed, marked for resync, never both holding a machine, and, once prepare had taken effect, with no machine on the target whatever became of the source |
| `MigrationExclusion.UnpreparedKeepsTarget` | internal/agent/migrate.go:149-153 | if prepare never took effect, every step of the driver from the start of the migration on leaves the target as it was, a leftover receiving slot without a machine apart |
| `MigrationExclusion.LostReplyRunsBoth` | internal/agent/receive.go:141-151 | from every committed handover, losing the reply lets the code's own rollback run both machines: the abort is refused, the source resumed |
| `MigrationExclusion.FailedLoadNeedsAbort` | internal/agent/receive.go:115-118 | a load that took effect but is reported as failed: after the rollback execution is exclusive if and only if the abort reached the target |
| `MigrationExclusion.AbortStalesBase` | internal/agent/migrate.go:123-131 | a run with a captured but unapplied round can go on to a rollback whose base is stale on an unmarked page, with needsResync set |
| `MigrationProgress.MigrationCanFinish` | internal/agent/migrate.go:109-303 | from every healthy world that a loss-free run reaches inside a migration, the run goes on to the reply: the source process is gone, its slot migrated, and the target runs the machine that was on its way |
| `MigrationProgress.WriteBetweenRounds` | internal/agent/migrate.go:203-243 | whatever the guest writes between two rounds is on its way, too |
| `MigrationWitness.MigrationSucceeds` | internal/agent/migrate.go:109-143 | for every machine, all guest writes before and after a pre-copy round, live or stock, a loss-free run ships that round and ends in success with the target running the machine with all those writes |
| `MigrationWitness.AbortedMigrationSucceeds` | internal/agent/migrate.go:109-186 | for every machine and all guest writes there is a loss-free run in which a first migration captures a round and aborts, and the next one pauses, resyncs, resumes, ships a round and succeeds with everything written meanwhile |
| `MigrationWitness.StaleBaseExists` | internal/agent/migrate.go:123-131 | for every guest and word such a run exists: boot, a guest write, one live round, abort |
| `MigrationWitness.HandoverIsReachable` | internal/agent/migrate.go:146-311 | for every guest memory loss-free runs reach the loaded and the committed handover with both machines alive |
| `MigrationWitness.DoubleExecutionExists` | internal/agent/migrate.go:123-136 | hence runs with both machines executing exist, by a lost reply and by an abort that does not reach a loaded target |
| `AgentState.Agent.HandlePrepare` | internal/agent/receive.go:29-59 | status by case; on 200 the slot, process and recv.mem become those of a fresh receiving slot and the old process is killed; other IDs untouched |
| `AgentState.Agent.HandleMem` | internal/agent/receive.go:61-82 | 409 unless receiving; 200 overlays the capture on recv.mem; a broken stream leaves what it wrote; other IDs untouched |
| `AgentState.Agent.HandleVmState` | internal/agent/receive.go:84-101 | 409 unless receiving; stores the state file |
| `AgentState.Agent.HandleFinalize` | internal/agent/receive.go:106-139 | 409 unless receiving; on success the machine in the received files runs, recv.mem is the base, the slot is running; on a failed load nothing changes |
| `AgentState.Agent.HandleAbort` | internal/agent/receive.go:141-160 | refused exactly for a registered slot that is not receiving; tears a receiving slot down; unknown IDs are fine |
| `AgentState.Agent.Migrate` | internal/agent/migrate.go:109-144 | refused unless running; success kills the process and marks the slot migrated; failure sets needsResync and ends running or dead |
| `AgentState.MigrationLeavesSlot` | internal/agent/migrate.go:109-144 | in every protocol run a migration leaves the source's slot as that contract says, for some resync and nothing else |
| `SparseCodec.WalkExtents` | internal/sparse/sparse.go:46-69 | terminates with the maximal data runs of the file |
| `SparseFile.Sparse.SeekData` | internal/sparse/sparse.go:54-60 | lseek SEEK_DATA: first data byte at or after the offset, or none |
| `SparseFile.Sparse.SeekHole` | internal/sparse/sparse.go:61-64 | lseek SEEK_HOLE: first hole at or after the offset, end of file counting as one |
| `SparseFile.RunsAscend` | internal/sparse/sparse.go:46-69 | those runs are non-empty, ascending, disjoint and not adjacent |
| `SparseFile.RunsCover` | internal/sparse/sparse.go:46-69 | a byte is data if and only if it lies in one of them |
| `SparseFile.RunsUnique` | internal/sparse/sparse.go:46-69 | the extent list is determined by the layout |
| `SparseCodec.TotalBytes` | internal/sparse/sparse.go:72-78 | the sum of the extent lengths |
| `SparseFile.TotalCounts` | internal/sparse/sparse.go:72-78 | that sum is the number of data bytes |
| `SparseCodec.Send` | internal/sparse/sparse.go:81-128 | success if and only if no record starts at an offset that cannot be read and the pipe has room for the whole encoding; the wire then carries header, records and trailer and sent is the number of data bytes; failure: a strict prefix of that |
| `SparseCodec.SendExtent` | internal/sparse/sparse.go:101-118 | one extent is sent as records of at most 4 MiB, hashed and counted; it fails exactly if one of them cannot be read or does not fit |
| `SparseFile.ChunksGood` | internal/sparse/sparse.go:101-118 | the records of an extent respect the cap and the file size and their payloads concatenate to the extent |
| `SparseCodec.Receive` | internal/sparse/sparse.go:132-176 | for every input stream it ends like the decoder, its records applied to the resized destination inside [0, size), unless a write fails, which happens exactly if one of the decoder's records hits a fault; then it is broken off inside that record |
| `SparseCodec.ReadRecord` | internal/sparse/sparse.go:148-168 | reading one record either ends the decode as the decoder function says or yields a record that fits the file |
| `SparseCodec.WriteRec` | internal/sparse/sparse.go:169-173 | a record is written inside the file, refused for an offset that is negative as int64, or broken off by an I/O error, which happens exactly if it hits a fault |
| `WireFormat.HeaderInside` | internal/sparse/sparse.go:160-171 | a header that passes the checks, the sum off + length wrapping modulo 2^64, describes bytes inside the file |
| `WireFormat.HeaderLayout` | internal/sparse/sparse.go:91-93 | the header is F, C, M, G and the size, most significant byte first |
| `WireFormat.AppliedInside` | internal/sparse/sparse.go:147-175 | so every record any input makes the decoder apply lies in [0, size) |
| `WireFormat.ParseOfEncode` | internal/sparse/sparse.go:132-176 | the decoder accepts every encoding, with anything behind it, and recovers exactly its records |
| `WireFormat.AcceptedIsEncoding` | internal/sparse/sparse.go:132-176 | the decoder accepts nothing else: an accepted input starts with the encoding of what it applied |
| `WireFormat.PrefixRejected` | internal/sparse/sparse.go:101-127 | no strict prefix of an encoding is accepted |
| `WireFormat.ChangedPayload` | internal/sparse/sparse.go:154-158 | a stream whose payload was changed under its trailer passes if and only if the checksums agree |
| `CrcStream.CrcIncremental` | internal/sparse/sparse.go:98-118 | hashing chunk by chunk equals hashing the concatenation, for CRC-32 |
| `CrcStream.ChecksumIsSum` | internal/sparse/sparse.go:98-123 | the checksum of the trailer is the CRC-32 of all payloads |
| `CrcStream.KnownStream` | internal/sparse/sparse.go:91-127 | the 37 bytes sent for a one-byte file that holds the letter a |
| `CrcStream.BurstRejected` | internal/sparse/sparse.go:145-174 | changing payload bytes only within four consecutive payload bytes always ends in a checksum mismatch, whatever the length and chunking |
| `Crc32.BurstChangesSum` | internal/sparse/sparse.go:98-125 | the CRC-32 (section 8 of RFC 1952) of two payloads that differ only within four consecutive bytes differs |
| `Crc32.KnownAnswer` | internal/sparse/sparse.go:98-98 | the checksum of the one-byte string a is 0xE8B7BE43 |
| `Crc32.Shift8Injective` | internal/sparse/sparse.go:98-98 | one byte step of the CRC register is injective |
| `SparseTransfer.CompleteStreamOverlays` | internal/sparse/sparse.go:81-176 | a complete stream is accepted and yields the resized destination with exactly the data bytes overwritten; written equals sent equals the number of data bytes |
| `SparseTransfer.IncompleteStreamRefused` | internal/sparse/sparse.go:132-176 | of all prefixes of a stream exactly the whole one is accepted, and only if the size can be truncated to |
| `SparseTransfer.TransferWith` | internal/agent/migrate.go:354-397 | one transfer with failing reads, writes and pipe and any tail lost behind the sender succeeds if and only if the file is readable, its encoding fits the pipe and is delivered whole, its size is acceptable and no record hits a write fault; success means the overlay |
| `SparseTransfer.Transfer` | internal/agent/migrate.go:354-397 | the same with CRC-32 |
| `SparseFile.ApplyIsOverlay` | internal/sparse/sparse.go:136-175 | applying a file's records to the resized destination is the overlay |
| `SparseFile.OverlayOnEmpty` | internal/agent/receive.go:45-52 | onto an empty file the overlay is an exact copy |
| `SparseFile.LastWriterWins` | internal/sparse/sparse.go:16-18 | after any list of streams of any sizes a byte is that of the last stream that has data there or cut it off, or else the destination's |
| `SparseTransfer.OverlayMerges` | internal/agent/receive.go:74-74 | receiving a diff file into a file that holds an image makes it hold the merged image |
| `SparseTransfer.RoundsMerge` | internal/agent/receive.go:45-52 | base and rounds in order leave a file that holds what the protocol model assembles |
| `Keystream.MixInjective` | cmd/guestd/main.go:234-240 | two states mix to the same word if and only if they are equal: the splitmix64 mixer is a bijection of the 64-bit words |
| `Keystream.KeysDiffer` | cmd/guestd/main.go:230-240 | the keystreams of two iterations of one page differ at every position |
| `Keystream.KeysApart` | cmd/guestd/main.go:208-240 | for pages and iterations below 2^32 two keystreams agree at a position if and only if they are of the same page and iteration |
| `KeystreamVector.FirstOutput` | cmd/guestd/main.go:234-240 | the first output for seed 0 is 0xE220A8397B1DCDAF, the value published for splitmix64 |
| `Keystream.ShrDivides` | cmd/guestd/main.go:237-239 | the right shift used is division by a power of two |
| `Keystream.XorBits` | cmd/guestd/main.go:237-239 | the exclusive or used is bitwise |
| `Keystream.Generator.Next` | cmd/guestd/main.go:234-240 | advances the state and returns its mix |
| `ScribblePage.VerifiesIffWritten` | cmd/guestd/main.go:214-228 | a page verifies if and only if writePage could have produced it |
| `ScribblePage.PageByte` | cmd/guestd/main.go:204-212 | every byte of a page: page index, iteration and keystream, word by word, least significant byte first |
| `ScribblePage.OneWordDecides` | cmd/guestd/main.go:194-197 | a page that shares one whole word after the first with a written page verifies if and only if it is that page |
| `ScribblePage.MixDetected` | cmd/guestd/main.go:194-197 | any word-granular mix of any iterations verifies if and only if all words after the first come from one |
| `ScribblePage.CutDetected` | cmd/guestd/main.go:194-197 | a new-prefix/old-suffix cut at any byte verifies if and only if it equals one of the two pages |
| `Scribbling.WritePage` | cmd/guestd/main.go:204-212 | the page's bytes become the page of (p, iter); no other byte changes |
| `Scribbling.CheckPage` | cmd/guestd/main.go:214-222 | true exactly for the pages writePage produces for p |
| `Scribbling.Scribbler.constructor` | cmd/guestd/main.go:159-165 | all pages well formed, counters zero |
| `Scribbling.Scribbler.Verify` | cmd/guestd/main.go:214-228 | counts the page, and an error exactly if it does not verify |
| `Scribbling.Scribbler.TakeTurn` | cmd/guestd/main.go:171-187 | one turn: the picked pages carry the new iteration, the others keep theirs, no error |
| `Scribbling.Scribbler.Run` | cmd/guestd/main.go:167-192 | any number of turns with any picks: pages well formed, no integrity error |
| `Scribbling.WriteKeepsWellFormed` | cmd/guestd/main.go:204-212 | a write to one page keeps all pages well formed |
| `Throttle.RunKeepsInv` | internal/agent/throttle.go:52-146 | in every interleaving of SetLevel calls and cycler goroutines the registry holds exactly the open cyclers, stopped threads are owned, and a cycler has sent SIGSTOP to exactly the threads its place in the loop says |
| `Throttle.OneOpenCycler` | internal/agent/throttle.go:63-77 | no VM has two open cyclers and no channel is closed twice |
| `Throttle.StoppedHasHolder` | internal/agent/throttle.go:116-142 | a stopped thread has a cycler that last sent it SIGSTOP and has not returned |
| `Throttle.HoldPresses` | internal/agent/throttle.go:133-141 | a cycler in its second wait last sent SIGSTOP to every one of its threads |
| `Throttle.CyclerStops` | internal/agent/throttle.go:127-133 | from every reachable state with a cycler in its first wait, its timer stops all its threads that still exist, and no others |
| `Throttle.CyclerReleases` | internal/agent/throttle.go:134-141 | from its second wait all of them run again, by its timer or for good once its channel is closed |
| `Throttle.ThrottlingWorks` | internal/agent/throttle.go:52-146 | for every VM, positive level and thread list a run stops exactly its threads that have not exited, and after SetLevel to zero lets every thread run |
| `Throttle.AllReturnedAllRun` | internal/agent/throttle.go:123-142 | once all cyclers have returned every thread runs |
| `Throttle.ReturnedReleases` | internal/agent/throttle.go:127-138 | a cycler returns only after its channel was closed, holding no thread |
| `Throttle.Throttler.SetLevel` | internal/agent/throttle.go:52-79 | result by case; registry and channels change as the call's steps of the transition system say: the old cycler closed once and forgotten even if the call then fails, a new one exactly on success at a positive level; other VMs untouched |
| `Throttle.CallRuns` | internal/agent/throttle.go:52-79 | a call's steps extend every run of the transition system |
| `Throttle.BookOfCall` | internal/agent/throttle.go:52-79 | what the method does to registry and channels is what those steps do |
| `Throttle.Throttler.Register` | internal/agent/throttle.go:44-49 | binds the pid and nothing else |
| `FlagRuns.ListedIsMaximal` | cmd/fcprobe/main.go:281-301 | every run the scan lists is maximal |
| `FlagRuns.MaximalIsListed` | cmd/fcprobe/main.go:281-301 | every maximal run is listed |
| `Probe.Scan` | cmd/fcprobe/main.go:265-305 | the loop of stats lists exactly the maximal never-answered runs and the maximal bad runs |
| `Probe.ComputeStats` | cmd/fcprobe/main.go:265-318 | LostRunNS and MaxGapNS are the longest spans over maximal lost and bad runs, the top lists the three longest, sent = received + lost, and LostRunNS <= MaxGapNS for sends in order |
| `Probe.MaxGapMeasured` | cmd/fcprobe/main.go:281-301 | MaxGapNS is the longest time from the first to one interval after the last of successive probes unanswered or answered after more than 5,000,000 ns, for sends in order |
| `Probe.TopThreeMeasured` | cmd/fcprobe/main.go:306-318 | a top list has three entries unless there are fewer runs, longest first; every entry is a maximal run, and every maximal run is an entry or no longer than the last of three |
| `Probe.LostWithinBad` | cmd/fcprobe/main.go:241-249 | the longest lost run never exceeds the longest bad run |
| `Probe.SwitchoverBlackout` | cmd/fcprobe/main.go:199-223 | the longest never-answered maximal run that meets [pause, resume], or 0 |
| `Probe.BlackoutMeasured` | cmd/fcprobe/main.go:199-223 | the blackout is the longest time covered by successive unanswered probes whose first was sent no later than the resume and whose end is not before the pause, or 0 |
| `Probe.BlackoutBounded` | cmd/fcprobe/main.go:190-223 | it never exceeds the longest never-answered run of all samples |
| `Pacer.PacedWriter.Write` | internal/agent/migrate.go:465-473 | counts the bytes in int64; returns at once if it is not ahead of the computed due time, otherwise exactly as late as the sleep overshoots that time |
| `Pacer.PaceIffNoOverflow` | internal/agent/migrate.go:468-471 | the floor of written * 10^9 / bytesPerSec is at most the elapsed time at return, whatever the clock reads, if and only if written <= 9,223,372,036 |
| `Pacer.FirstOverflow` | internal/agent/migrate.go:468-471 | one byte beyond that the writer does not sleep at all |
| `Pacer.PaceAll` | internal/agent/migrate.go:458-473 | over every sequence of writes within the limit, each write returns no earlier than its bytes are due |

## Left out

- HTTP, JSON, pipes, sockets, server-sent events, process spawning and the Firecracker API client: only success or failure of a call and its effect on model state are kept.
- Gratuitous ARP and bridge learning: delivery is decided outside this code.
- Write and seek batching inside a slot's dump: the model records which pages are written, in which order.
- reset_dirty and store_dirty_bitmap: upstream functions; their effect (clear all marks, add the marked pages) is taken as their contract.
- vCPU and device state: an opaque value carried intact.
- A log fetch that fails half way loses marks in the model; the migration then fails and sets needsResync, which is what `MigrationTheorems.RunKeepsData` covers.
- Effects of SIGSTOP beyond the addressed thread, and how long event-loop stalls last: kernel and timing behaviour.
- Release of the throttle on every exit: the deferred release is registered after the round loop, so an error inside the loop skips it.
- The create-conflict path of the slot registry: it removes the existing slot's ID, and nothing is claimed about it.
- A finalize that arrives after an abort, or two migrations of one ID at once: excluded by the assumption that migrations of an ID do not overlap.
- RoundLoop.PrecopyRounds: the plateau factor 0.9 is an exact fraction instead of a float64 comparison.
- AgentState.Agent.HandleMem: the stream's effect is an image; the byte-level decode is SparseCodec.Receive, and SparseTransfer.RoundsMerge connects the two.
- AgentState.Agent.Migrate: the outcome of migrateInner is a parameter here; its steps are the driver events of Migration, and AgentState.MigrationLeavesSlot says that they change the slot in no other way.
- DirtyTracking.CoverageRun: leaves out log fetches that fail half way, which really lose marks; DirtyTracking.FetchErrExact says when.
- SparseTransfer.TransferWith: bytes are lost from the tail only; a reply that the sender does not get is the step ShipFails of Migration.
- SparseCodec.Send: a file that changes during the transfer is not modelled.
- SparseCodec.WalkExtents: lseek errors other than "no more data" are not modelled.
- Scribbling.Scribbler.Run: the endless loop is any finite number of its turns; the page picks are inputs and the rate computation is not modelled.
- ScribblePage.OneWordDecides: byte-granular mixes that share no whole word after the first with a written page are not covered; the tears of a word-wise copy or of one cut always share one.
- Probe.ComputeStats: send times are unbounded integers, so sums near 2^63 do not wrap.
- Throttle.Throttler.SetLevel: what reading the task directory gives is an input; duty-cycle timing is not modelled.
- Quantiles, service-map rendering, timeline recorder, CLI flags, boot arguments and deployment files: no hard property.
