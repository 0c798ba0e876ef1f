# talea: the append-log ledger store, verified

talea is a double-entry ledger. A book is a stream of events (accounts opened,
assets registered, transactions posted), and everything else the store answers
is meant to be a function of that stream: balances now and as of a time, account
histories, trial balances, transaction lookups, duplicate answers for retried
idempotency keys, live subscriptions. What makes that hard is everything in
between: frames and rotating segment files that a power loss can cut anywhere, a
writer that accepts a whole batch against a projection before one fsync, an
idempotency index that spills to sorted runs behind a Bloom filter, snapshots,
readers running beside the writer, a Postgres store with a set-based fast path,
and a router of per-book committer tasks.

This project models that code in Dafny and proves that each of these parts agrees
with the simple thing it stands for.

## How it is laid out

| layer | files | relates |
|---|---|---|
| keys and bytes | `AccountKeys`, `Frames`, `Segments`, `SegmentReads`, `SegmentSets` | bytes on disk to a list of events, across cuts, repair and rotation |
| the book | `Types`, `PostingIndexes`, `Books`, `Judgements`, `BookStates` | in-place state with 64-bit arithmetic to a fold over events; what is accepted to sums over the integers |
| group commit | `Batches`, `Acceptances`, `SerialJobs`, `GroupCommit`, `BatchRuns` | batches of jobs to one job at a time, and each answer to the log |
| the index | `KeyOrder`, `IdemSpill`, `TieredIndex` | hot map, runs and filter to a plain map |
| the writer | `WriterSteps`, `BookWriters`, `WriterReopens` | the batch loop in place, with every I/O failure, and the reopen after a crash, to the log it keeps and to runs of the store machine |
| whole runs | `Histories`, `System`, `StoreRuns`, `StoreSafety`, `StoreGuarantees` | every run with power losses and kills at any point to crash safety, exactly-once, durability, snapshot independence |
| opening | `Snapshots`, `SnapshotRecoveries`, `BookOpens`, `KilledRestarts` | what a reopen reads to what it recovers, and where that falls short |
| readers | `AccountHistories`, `Readers`, `TrialBalances`, `Pages`, `Subscriptions`, `BatchMerges` | answers to definitions over the whole log |
| router | `WriteRouters`, `RouterBounds` | every interleaving of submitters and committers to exactly one answer per job, refusals and bounds included |
| Postgres | `PgTables`, `PgDrafts`, `PgBatch`, `PgSerial`, `PgRefinement`, `PgStores` | the set-based batch commit to the per-draft loop |
| double entry | `Posts`, `Conservation`, `ConservingRuns` | service-validated drafts to sums that stay zero |

Code that the source writes as loops over mutable state is a class or a method
with loops here (`SegmentSet`, `BookState`, `Scratch`, `TieredIdem`, `Bloom`,
`BatchRun`, `BookWriter`, `Snapshots`, `PgStore`), proved against a specification
function; the lemmas are about those functions.

The results about whole runs are proved of a state machine, `System`. The in-place
writer takes its steps: a ghost machine goes along with `BookWriters.BookWriter.RunBatch`,
`BackgroundDone` and `WriterReopens.Reopen`, standing for the same files, memory,
run files, snapshots and answers, so those results hold of the in-place code.

The crash model: a file is its bytes and how many of them are synced; a new file
also has a directory entry that may not be durable yet. A power loss keeps the
synced bytes and any byte prefix of the rest, and may lose a file whose entry is
not durable. A killed process loses nothing it wrote, and may leave part of a frame
at the end of the active file. A state of a run is that disk, the memory of the
writer, the run files, the snapshots, the batch in flight, and, as history only, the
log, how much of it is durable, and every Ok answer ever given. The results about
whole runs hold for every run with power losses anywhere, and with kills that are
settled: each tears a frame or finds the active file synced (`System.Orderly`).
Point 3 below is what other kills cost.

The payload codec (JSON) and the checksum are parameters. All that is asked of
them is that decoding undoes encoding (`Sound`). Arithmetic that is not checked in
the source (the negation in `effective` and `posting_delta`, the sums of the Postgres
fast path) wraps here, as it does in a release build; a debug build would panic on
the same inputs.

## Where the code and its description part

Each of these is proved, with the condition under which the code does keep its
promise.

1. `talea-store-postgres/src/batch.rs:1-8` calls the per-draft loop the semantic
   reference of the fast path. The fast path adds up a batch per account and looks
   at running balances only for accounts with a minimum, so it commits a batch in
   which an account passes the 64-bit limit and comes back, where the loop refuses a
   draft. `PgRefinement.FastPathMissesOverflow` gives the input;
   `PgRefinement.FastRefinesPerDraft` and `PgRefinement.CommitBatchRefines` say that
   this is the only difference: they agree if and only if every running balance fits.
2. `talea-store-log/src/idem_spill.rs:39-44` and the comment at
   `talea-store-log/src/lib.rs:277-300` promise that a damaged run is rebuilt from
   the full log. The list handed to the rebuild holds only the replayed tail, and
   those keys are hot already (`BookOpens.RebuildIsNoHelp`). With a snapshot, a
   damaged run loses the keys spilled before it (`BookOpens.DamagedRunLosesKey`) and a
   retry posts twice (`BookOpens.LostKeyPostsAgain`). Every key is found again if and
   only if all run files are readable or no key had left the hot map when the snapshot
   was taken (`BookOpens.FoundExactly`, `BookOpens.OpenBook`); with no snapshot, always
   (`BookOpens.WithoutSnapshot`).
3. A reopen syncs the final segment only when it had to truncate it
   (`talea-store-log/src/segment.rs:379-380`). If the process is killed, without a
   power loss, between write and fsync, the restarted store works from events that
   were never synced: it answers a retry Ok (`KilledRestarts.KilledLosesAck`), or takes
   a snapshot of them (`KilledRestarts.SnapshotAhead`), and a later power loss takes the
   events away, after which the snapshot is ahead of the log and numbering has a gap
   (`KilledRestarts.SnapshotLeavesGap`). `KilledRestarts.KilledExactly` says when a kill
   is safe, from whatever snapshot the restart begins: if and only if it tore a frame
   or found the final file synced. `KilledRestarts.HastyKill` is a run that is not.
4. Opens are checked against committed accounts only
   (`talea-store-log/src/writer.rs:538-571`). An account opened in a batch is unknown
   to that batch's commits (`GroupCommit.OpenedInBatchIsUnknown`), and of two opens of
   it both are staged and answered Ok while the second one's settings are dropped
   (`GroupCommit.SecondOpenIsDropped`). `GroupCommit.BatchIsSerial` says exactly when a
   batch of any jobs agrees with its jobs one at a time: if and only if no job opens
   once more an account a batchmate opens, and no commit is refused for an account a
   batchmate opened before it.

## Model

| member | source | states |
|---|---|---|
| AccountKeys.ToKey | talea-core/src/types/accounts.rs:31-42 | the escaping loop builds the flat key of a book and path |
| AccountKeys.SplitUndoesKey | talea-core/src/types/accounts.rs:24-42 | splitting a key at its first unescaped colon and unescaping gives back the book and the path, for all strings |
| AccountKeys.KeyInjective | talea-core/src/types/accounts.rs:24-42 | two accounts with one key are one account, so no two share a map entry |
| Frames.EncodeFrame | talea-store-log/src/frame.rs:43-52 | a frame is length, checksum and payload; refused exactly when the payload length does not fit in 32 bits |
| Frames.DecodeCutFrame | talea-store-log/src/frame.rs:54-87 | cut anywhere, a frame decodes to its event if whole, to the clean end if nothing is left of it, and otherwise to Torn, never Corrupt |
| Frames.DecodeLocal | talea-store-log/src/frame.rs:61-87 | what a successful decode returns depends on the bytes it reports consumed and on nothing after them |
| Frames.DecodeExactly | talea-store-log/src/frame.rs:54-87 | any bytes: too few for a header or for the length its first four bytes spell are torn; a whole frame is corrupt exactly when its checksum is not its payload's or the payload does not parse, and otherwise is its event |
| Frames.ScanPrefix | talea-store-log/src/segment.rs:99-131 | frames at the front of a buffer are found, all and in order, before whatever undecodable bytes follow |
| Frames.CutStream | talea-store-log/src/frame.rs:54-87 | any byte prefix of concatenated frames decodes to exactly the frames it contains whole, then to the clean end or Torn, the first exactly when the cut is between frames |
| Frames.RepairIdempotent | talea-store-log/src/segment.rs:384-398 | on any bytes at all, cutting back to the last good frame keeps every event that decoded and leaves nothing to repair |
| Frames.Validate | talea-store-log/src/segment.rs:289-316 | the offset loop reports the last good offset, as a truncation for the final segment and as corruption for a sealed one |
| Segments.AppendHolds | talea-store-log/src/segment.rs:445-450 | an append adds one event to what the disk holds and makes nothing more durable |
| Segments.SyncHolds | talea-store-log/src/segment.rs:452-459 | after an fsync of the active file every event held is durable |
| Segments.CreateHolds | talea-store-log/src/segment.rs:474-483 | creating the next file neither adds nor drops an event, because the file before it was synced first |
| Segments.SyncDirHolds | talea-store-log/src/segment.rs:484-487 | syncing the directory changes no event and no durability |
| Segments.SealActive | talea-store-log/src/segment.rs:474-492 | a synced active file that holds an event can be sealed: its bytes are exactly its share of the log, durably |
| Segments.SyncedExactly | talea-store-log/src/segment.rs:452-459 | the bytes of the active file are all synced exactly when every event held is durable |
| Segments.CutActive | talea-store-log/src/segment.rs:289-316 | cutting the active file anywhere at or past its durable bytes leaves at least the durable events, whole, then a tail that does not decode |
| Segments.CrashShows | talea-store-log/src/segment.rs:289-316 | after a power loss that keeps the durable bytes and any byte prefix of the rest, a reader finds the durable events and then some prefix of the others |
| Segments.RepairHolds | talea-store-log/src/segment.rs:370-420 | repair accepts what a reader can find and holds exactly those events under the same names: durable to the end when it had to truncate, and otherwise exactly as far as the final file was synced before |
| Segments.RepairSynced | talea-store-log/src/segment.rs:376-399 | when the final file's bytes were all durable, clean or not, everything repair holds is |
| Segments.KillShows | talea-store-log/src/segment.rs:289-316 | after a kill a reader finds every event written; the final file is clean exactly when no frame was torn |
| Segments.KillHolds | talea-store-log/src/segment.rs:376-405 | reopening after a kill holds every event written; all are durable if a frame was torn, and otherwise only those synced before the kill |
| Segments.CrashRecovery | talea-store-log/src/segment.rs:342-434 | whatever a power loss leaves, opening is not refused and holds, durably, exactly the fsynced events followed by some prefix of the unsynced ones |
| SegmentReads.AppendPlaces | talea-store-log/src/segment.rs:515-523 | an append puts its event at the position `next_pos` gave and moves no other event |
| SegmentReads.CreateKeepsPlaces | talea-store-log/src/segment.rs:474-494 | rotation moves no event |
| SegmentReads.CutKeepsPlaces | talea-store-log/src/segment.rs:379-399 | a crash that cuts the active file moves no surviving event |
| SegmentReads.LostFileKeepsPlaces | talea-store-log/src/segment.rs:417-420 | nor does one that loses a new file whose directory entry was not yet durable |
| SegmentReads.FromDense | talea-store-log/src/segment.rs:110-115 | in a dense log the filter on the sequence number is a suffix of the log |
| SegmentReads.ScanRefinesLog | talea-store-log/src/segment.rs:78-199 | for every rotation schedule and whatever undecodable tail the active file shows, a scan is the first `limit` events with `seq >= from` of the flat log, each at its own position |
| SegmentSets.ScanPage | talea-store-log/src/segment.rs:170-196 | the loop over one file computes the page of that file's specification |
| SegmentSets.ScanWithPos | talea-store-log/src/segment.rs:142-199 | start file, file loop, limit and decode errors: an error ends the scan quietly in the last file and is the answer in a sealed one |
| SegmentSets.ReadAt | talea-store-log/src/segment.rs:202-256 | one frame at a recorded position; a missing file, a frame past the end of the file, a bad frame or another sequence number is an error |
| SegmentSets.RecordedPositionsRead | talea-store-log/src/segment.rs:201-256 | in any log that shows the events, each event's recorded position reads back that very event |
| SegmentSets.SegmentSet.Open | talea-store-log/src/segment.rs:348-434 | refuses exactly the images repair refuses (a damaged sealed file); otherwise a truncated final file is synced, a clean one is left as it was, the directory is synced, and the length counter is right |
| SegmentSets.SegmentSet.Append | talea-store-log/src/segment.rs:446-450 | whatever part of the frame got out is on disk; the counter stays right when all of it did |
| SegmentSets.SegmentSet.Sync | talea-store-log/src/segment.rs:453-459 | on success the active file's bytes are durable, on failure the disk is as it was |
| SegmentSets.SegmentSet.MaybeRotate | talea-store-log/src/segment.rs:474-494 | nothing below the threshold; otherwise exactly as many of the three steps sync, create, link as succeeded, in that order |
| SegmentSets.SegmentSet.NextPos | talea-store-log/src/segment.rs:516-523 | the base and length kept in memory are where the next frame will go on disk |
| PostingIndexes.PushAppends | talea-store-log/src/state.rs:79-85 | pushing into the chunks appends to the flat list |
| PostingIndexes.FlatLength | talea-store-log/src/state.rs:88-90 | the length computed from the chunk count is the flat length |
| PostingIndexes.GetIsFlat | talea-store-log/src/state.rs:143-152 | `get` by division and remainder is flat indexing, out of range included |
| PostingIndexes.IterIsFlat | talea-store-log/src/state.rs:155-179 | iteration from any index is the flat suffix, with no seam at chunk borders |
| PostingIndexes.PartitionPointIsFlat | talea-store-log/src/state.rs:101-140 | searching last entries of chunks and then one chunk finds the partition point of the whole sorted history, by time or by sequence number |
| PostingIndexes.RechunkRoundTrip | talea-store-log/src/state.rs:185-211 | saving flat and chunking again on load gives the very same index |
| Books.MisfitFree | talea-store-log/src/state.rs:371-386 | when the account check finds nothing, every posting's account exists and holds its asset |
| Books.ProjectLocally | talea-store-log/src/state.rs:399-417 | projecting over the seeded part of the balances agrees with projecting over all of them, overflow and the overflowing account included |
| Books.PostingProjects | talea-store-log/src/state.rs:453-510 | applying postings succeeds exactly when the projection stays in 64 bits, leaves exactly the projected balances, and touches nothing but balances, histories and sums |
| Books.ReplayConcat | talea-store-log/src/lib.rs:249-275 | replay of two logs in a row is replay of the second from where the first ended |
| BookStates.Scratch.Stage | talea-store-log/src/state.rs:320-341 | the overlay moves to the projection, and staging fails exactly when the projection does |
| BookStates.BookState.Load | talea-store-log/src/state.rs:240-290 | a state loaded from a snapshot models the book that was saved, with nothing in runs |
| BookStates.BookState.CheckAccounts | talea-store-log/src/state.rs:371-386 | the first posting with an unknown account or another asset is the one reported, and nothing is reported exactly when there is none |
| BookStates.BookState.Seed | talea-store-log/src/state.rs:390-397 | only touched accounts not yet projected are seeded, from their committed balances |
| BookStates.BookState.ProjectTouched | talea-store-log/src/state.rs:400-417 | the local projection of this transaction agrees with the full one on every touched account, overflow included |
| BookStates.BookState.CheckMinimums | talea-store-log/src/state.rs:419-432 | refuses exactly when some projected balance, as an integer seen from the account's normal side, is less than its minimum, and then names such an account with its minimum and that balance |
| BookStates.BookState.Validate | talea-store-log/src/state.rs:365-435 | accepts if and only if the transaction is acceptable over the integers: book not reserved, every posting to a known account in its asset, every running sum on top of the balance in 64 bits, no touched account below its minimum; otherwise reports the fault of the first check that fails, and only seeds the overlay |
| Judgements.JudgedExactly | talea-store-log/src/state.rs:356-435 | which verdict a transaction gets and what it names, from sums of its postings alone: reserved book, first bad posting, first running sum out of 64 bits, exactly the accounts that would end below their minimum with what they would end at, or acceptance |
| Judgements.ProjectExactly | talea-store-log/src/state.rs:399-417 | projecting is adding each account's debits less credits, and fails at the first posting that leaves 64 bits |
| Judgements.MinimumOverIntegers | talea-store-log/src/state.rs:23-28 | the wrapped negation decides a minimum as the integers do but for one total: a credit-normal account at the lowest 64-bit number is refused a minimum it meets |
| BookStates.BookState.AddToSums | talea-store-log/src/state.rs:483-509 | lifetime sums saturate at the 64-bit maximum, side by side |
| BookStates.BookState.ApplyPosting | talea-store-log/src/state.rs:453-509 | one posting in place: fails exactly on 64-bit overflow, otherwise leaves the state one step of the fold prescribes |
| BookStates.BookState.TryApplyTransaction | talea-store-log/src/state.rs:446-526 | fails exactly when a balance would leave 64 bits; otherwise the in-place updates leave the book the fold prescribes and the key hot |
| BookStates.BookState.ApplyAccountOpened | talea-store-log/src/state.rs:536-553 | a new account starts at zero; one already there is left alone; the counters move either way |
| BookStates.BookState.BumpSeq | talea-store-log/src/state.rs:557-560 | only the counters move |
| BookStates.BookState.ApplyEvent | talea-store-log/src/writer.rs:656-677 | any event in place is one step of the fold, and adds at most one hot key |
| Batches.AcceptedApplies | talea-store-log/src/writer.rs:490-513 | what validation accepts can be staged, and applied to any state the overlay mirrors it succeeds and lands on the staged balances |
| Batches.ClassifyStep | talea-store-log/src/writer.rs:466-608 | whatever the next job and the clock, the batch stays well formed, at most one event is staged, and that event applies to the mirrored state |
| Batches.StagedApply | talea-store-log/src/writer.rs:505-513 | for any batch and any clock readings every staged event applies in order after the fsync, with no overflow: the fail-stop branches at staging and at apply are unreachable |
| Batches.SlotsAnswer | talea-store-log/src/writer.rs:476-533 | every commit is answered for its own key: the committed record, an event of this batch with that key, or a refusal |
| Acceptances.CommitExactly | talea-store-log/src/writer.rs:476-533 | how a commit of a batch is answered, from the log and the batch's events before it: with the log's record for a key the log has, with the batchmate that has the key, and otherwise staged if and only if it is acceptable over the sums of everything posted so far |
| Acceptances.OpenExactly | talea-store-log/src/writer.rs:538-571 | an open is staged for an account the log never opened, Ok for one first opened with the same settings, and a conflict for one first opened with others |
| Acceptances.TimesExactly | talea-store-log/src/writer.rs:461-575 | a staged event's time is a clock reading of its batch or the log's last time, and never behind the log, the batch's first reading or its own |
| SerialJobs.JudgeExtends | talea-store-log/src/state.rs:365-435 | a transaction is judged alike whatever other accounts there are, unless it names one of them before anything else is wrong, and then it never is |
| SerialJobs.JobStep | talea-store-log/src/writer.rs:466-608 | a job of any kind that does not clash is answered and done by the batch as on its own |
| SerialJobs.ClashStep | talea-store-log/src/writer.rs:538-571 | a clash shows at once: in the answer, or in a sequence number spent on an account that was open already |
| SerialJobs.OutOfStepStays | talea-store-log/src/writer.rs:466-608 | after that no further job brings the batch and one-at-a-time back together |
| GroupCommit.BatchIsSerial | talea-store-log/src/writer.rs:461-608 | one batch of any jobs answers and does what its jobs do one at a time, up to clock readings, if and only if no job clashes with an earlier one of the batch |
| GroupCommit.SeparateIsClashFree | talea-store-log/src/writer.rs:538-571 | no job clashes when none opens or posts to a new account that an earlier job of the batch opens, which a caller can see from the jobs |
| GroupCommit.GroupCommitIsSerial | talea-store-log/src/writer.rs:370-679 | however jobs are cut into clash-free batches and whatever the clocks read, answers, sequence numbers, duplicate answers and the final book are those of batches of one |
| GroupCommit.CutsAgree | talea-store-log/src/writer.rs:370-679 | any two clash-free ways to batch the same jobs agree |
| GroupCommit.EasyGroups | talea-store-log/src/writer.rs:370-679 | batches without opens, and batches of one job, are always clash-free |
| GroupCommit.OpenedInBatchIsUnknown | talea-store-log/src/writer.rs:500-503 | a clash: a commit posting first to an account opened in its own batch is refused as unknown |
| GroupCommit.SecondOpenIsDropped | talea-store-log/src/writer.rs:538-571 | a clash: two opens of one new account in a batch are both answered Ok and staged, the first one's definition and settings stay, the second one's are dropped, and a sequence number is spent; alone, the second is refused if it differs and spends none if not |
| BatchRuns.FilterKeys | talea-store-log/src/writer.rs:409-426 | phase 2a collects every commit key that is not hot and that the filter does not rule out |
| BatchRuns.LookupKeys | talea-store-log/src/writer.rs:428-452 | phase 2b finds in the runs what is there for those keys, and answers only with records of the index |
| BatchRuns.ResolveKeys | talea-store-log/src/writer.rs:409-452 | hot map, filter and runs together answer, for every commit of the batch, exactly what the whole index holds |
| BatchRuns.BatchRun.CommitJob | talea-store-log/src/writer.rs:476-533 | the in-place commit branch computes the specification's step and never fails staging |
| BatchRuns.BatchRun.OpenJob | talea-store-log/src/writer.rs:538-571 | the in-place open branch computes the specification's step |
| BatchRuns.BatchRun.RunJob | talea-store-log/src/writer.rs:466-608 | any job: the in-place loop body is one step of the classification |
| BatchRuns.ClassifyJobs | talea-store-log/src/writer.rs:402-614 | the whole two-phase loop stages what the specification stages, answers as it answers, and never sets its fatal flag |
| IdemSpill.Bloom.Add | talea-store-log/src/idem_spill.rs:115-119 | the key is added and no key added before is forgotten |
| IdemSpill.Bloom.MightContain | talea-store-log/src/idem_spill.rs:122-126 | no false negatives, whatever the two hashes are |
| IdemSpill.NextRunN | talea-store-log/src/idem_spill.rs:696-708 | the number is above every registered run's, so a merge cannot overwrite or delete its own output |
| IdemSpill.NextIsOnePast | talea-store-log/src/idem_spill.rs:696-708 | it is one past the highest registered number, and 0 when there is none |
| IdemSpill.SpillKeepsContents | talea-store-log/src/idem_spill.rs:508-574 | moving the oldest half to a new run changes no lookup |
| IdemSpill.MergeKeepsContents | talea-store-log/src/idem_spill.rs:580-674 | one merged, deduplicated run answers like the runs it replaces |
| IdemSpill.RestoredHot | talea-store-log/src/idem_spill.rs:533-556 | entries put back after a failed write restore exactly the hot map |
| KeyOrder.SortSorts | talea-store-log/src/idem_spill.rs:527-528 | sorting by key gives a sorted permutation |
| KeyOrder.DedupKeepsKeys | talea-store-log/src/idem_spill.rs:611-617 | dropping later entries of a key loses no key |
| KeyOrder.BinarySearch | talea-store-log/src/idem_spill.rs:464-467 | finds an entry of a sorted run exactly when there is one |
| TieredIndex.TieredIdem.WithCap | talea-store-log/src/idem_spill.rs:262-271 | an empty index of the given capacity |
| TieredIndex.TieredIdem.Loaded | talea-store-log/src/idem_spill.rs:214-226 | an index as a snapshot loads it: the hot entries in their order, no runs attached |
| TieredIndex.TieredIdem.Insert | talea-store-log/src/idem_spill.rs:418-423 | the plain map gains the key, and so does the hot map |
| TieredIndex.TieredIdem.BloomMightContain | talea-store-log/src/idem_spill.rs:441-443 | a key in any registered run is never ruled out |
| TieredIndex.TieredIdem.LookupRuns | talea-store-log/src/idem_spill.rs:449-484 | a hit is the plain map's record, a miss means no registered run has the key |
| TieredIndex.TieredIdem.Get | talea-store-log/src/idem_spill.rs:489-497 | hot map, filter and runs together return exactly what the plain map holds |
| TieredIndex.TieredIdem.Drain | talea-store-log/src/idem_spill.rs:514-522 | the n oldest entries leave the hot map, in age order |
| TieredIndex.TieredIdem.Restore | talea-store-log/src/idem_spill.rs:533-556 | the drained entries are hot again and no other entry moved |
| TieredIndex.TieredIdem.MergeRuns | talea-store-log/src/idem_spill.rs:580-674 | the plain map is unchanged whether the write succeeds or fails and whatever files resist removal; on success one run is left, under a fresh number; files and registered runs are exactly those that a merge that far leaves |
| TieredIndex.TieredIdem.FlushSpill | talea-store-log/src/idem_spill.rs:508-575 | the plain map is unchanged either way; success halves the hot map, failure leaves it as it was; hot map, files and registered runs are exactly those that a spill and merge that far leave |
| TieredIndex.RunsPileUp | talea-store-log/src/idem_spill.rs:508-575 | a spill adds one run after the others up to eight; the ninth is merged with them into one, or stays a ninth when that write fails |
| TieredIndex.TieredIdem.RebuildRuns | talea-store-log/src/idem_spill.rs:346-384 | one sorted run holding exactly the listed entries that are not hot, or none |
| TieredIndex.TieredIdem.AttachDir | talea-store-log/src/idem_spill.rs:284-412 | after attaching, the index answers exactly the keys it kept, whichever old files resist removal before a rebuild; it answers all keys of the log if and only if each is hot, or in a run when all runs are readable, or in a rebuilt run; all runs of an undamaged directory are registered |
| BookWriters.WriteOne | talea-store-log/src/writer.rs:618-638 | rotate if due, then append: the frame is on disk at the recorded position and the store machine has taken the same rotation and append steps; or the writer stopped, the log up to the batch is recoverable, and the files are those of a machine stopped in the batch but for part of a frame |
| BookWriters.WriteStaged | talea-store-log/src/writer.rs:616-648 | all frames in order, then one fsync: the batch is durable and placed, and the machine has synced it; or the writer stopped with every event of the log recoverable, and so did the machine |
| BookWriters.RotateHolds | talea-store-log/src/segment.rs:474-494 | however far a rotation gets before an error, the log stays on disk with its positions |
| BookWriters.HeldRecovers | talea-store-log/src/segment.rs:342-434 | from any disk holding the log and part of a batch, a power loss and a reopen keep the log and add nothing but a prefix of that batch |
| BookWriters.ApplyStaged | talea-store-log/src/writer.rs:650-679 | applying the durable batch never fails, leaves the fold of the longer log, and adds the batch's keys to the hot map |
| BookWriters.SpillIfNeeded | talea-store-log/src/writer.rs:691-709 | the book is the same before and after; the hot map halves exactly when it was over capacity and the spill succeeded; hot map, run files and registered runs are where steps of the machine lead |
| BookWriters.ReplyAll | talea-store-log/src/writer.rs:711-873 | every job gets its own answer, in queue order, a failed snapshot write included, and the events broadcast are the staged ones, each once, in order |
| BookWriters.ClassifyInOrder | talea-store-log/src/writer.rs:711-725 | staged replies run through the staged events in order, so broadcasts are in sequence order |
| BookWriters.BookWriter.ApplyDurable | talea-store-log/src/writer.rs:650-709 | applying the durable batch and spilling leave the writer consistent with the longer log |
| BookWriters.BookWriter.AfterApply | talea-store-log/src/writer.rs:711-893 | over a batch in memory: snapshots taken or their failure told, staged events broadcast, every job answered |
| BookWriters.BookWriter.SnapshotPhase | talea-store-log/src/writer.rs:826-893 | an explicit snapshot job writes the state after the batch, once, and learns whether that failed; a clone is handed to the background if and only if the batch applied something, the events since the last clone have reached the threshold and none is in flight, and the counter is those events |
| BookWriters.BookWriter.BackgroundDone | talea-store-log/src/writer.rs:872-887 | whatever was committed meanwhile, the file the background task leaves holds the state after exactly the events in its name, and the machine has written and dropped the same snapshots |
| BookWriters.OverdueMeansBusy | talea-store-log/src/writer.rs:821-893 | events can be overdue for a snapshot only because a batch came while the background was still writing the last one |
| BookWriters.BookWriter.Finish | talea-store-log/src/writer.rs:650-893 | after the fsync: apply, spill, snapshot, broadcast and reply leave the writer consistent with the longer log |
| BookWriters.BookWriter.RunBatch | talea-store-log/src/writer.rs:370-893 | alive, the log has grown by exactly the staged events, durable, applied, broadcast in order, every job answered, snapshots taken or their failure told, and a hot map that started within max(cap, batch_max) stays there while spills succeed; stopped, memory and snapshots are untouched and a reopen keeps the log and at most a prefix of the batch; whichever way it ends, the steps of the batch are steps of the store machine, which ends idle over the same files, memory, index and snapshots with exactly the Ok answers given, or dead over the same files but for part of a frame; over all batches and background completions so far, each clone was handed over exactly when it was due (`Valid`, `Tallies`) |
| BookWriters.AckedIs | talea-store-log/src/writer.rs:711-800 | the Ok answers to commits among the responses are the answers the machine gives, each with its key and record |
| BookWriters.BookWriter.FullStands | talea-store-log/src/writer.rs:409-461 | a machine that stands for the writer classifies against exactly what its memory and its three index tiers answer |
| WriterSteps.RotateWorks | talea-store-log/src/segment.rs:474-494 | the machine takes as many of a rotation's steps as succeeded |
| WriterSteps.HaltsInFrame | talea-store-log/src/segment.rs:446-450 | a writer that stops inside a frame leaves the files of a reached machine state and part of a frame; what a power loss makes of them it could make of a machine that wrote the frame whole |
| WriterSteps.LookupsStand | talea-store-log/src/idem_spill.rs:489-497 | hot map and registered runs as the machine has them answer what the index answers |
| WriterSteps.SpillWorks | talea-store-log/src/idem_spill.rs:508-575 | a spill, with the merge after it, is a run of the machine, however far its writes get and whatever files resist removal |
| WriterSteps.MergeWorks | talea-store-log/src/idem_spill.rs:580-674 | so is a merge: the new file and each removal are steps |
| WriterSteps.FilesWork | talea-store-log/src/snapshot.rs:61-95 | so is a snapshot write with its pruning, from the rename that fails to sync to the last file removed |
| WriterSteps.ReachedOn | talea-store-log/src/writer.rs:370-893 | steps of the writer lead from states of orderly runs to states of orderly runs |
| Histories.FoldConcat | talea-store-log/src/lib.rs:243-275 | a good log cut anywhere replays from the fold of its front to the fold of the whole |
| Histories.BatchExtends | talea-store-log/src/writer.rs:461-679 | whatever a batch stages extends a log with dense numbers, ordered times and unique keys to another such log, whose fold is the applied state |
| Histories.ReplayIgnoresKeys | talea-store-log/src/state.rs:512-519 | replay over any starting key map gives the same book, with those keys and the log's on top |
| Histories.KeyNamesEvent | talea-store-log/src/state.rs:512-519 | a key of the log belongs to exactly one event, and the record kept for it is that event's |
| StoreRuns.WritingStep | talea-store-log/src/writer.rs:616-648 | rotation, append and fsync, in any allowed order, keep the store's invariant, only extend the log and never shrink its durable part |
| StoreRuns.RunsStep | talea-store-log/src/idem_spill.rs:508-674 | spills, merges, abandoned files and removals, at any number not registered, change no lookup |
| StoreRuns.ApplyStep | talea-store-log/src/writer.rs:650-679 | from any reachable state the apply after the fsync succeeds and memory becomes the fold of the whole log |
| StoreRuns.AnswersRecorded | talea-store-log/src/writer.rs:711-774 | every Ok a batch gives a commit carries the record the log has for that key |
| StoreSafety.SnapshotRoundTrip | talea-store-log/src/state.rs:181-211 | loading a snapshot of the state after any number of events gives that state back, chunks included |
| StoreSafety.CrashLog | talea-store-log/src/segment.rs:342-434 | a reopen after a power loss has, durably and in place, at least the durable events and some prefix of the log |
| StoreSafety.RecoverIs | talea-store-log/src/lib.rs:198-275 | reading the surviving bytes and replaying the tail onto any snapshot picked is the state reopened on the surviving log |
| StoreSafety.CrashStep | talea-store-log/src/lib.rs:198-320 | a power loss in any state and a reopen from any retained snapshot succeeds and keeps the invariant |
| StoreSafety.KillStep | talea-store-log/src/lib.rs:198-320 | a kill in any state, a torn frame included, and a restart from any retained snapshot succeeds and finds every event written; it keeps the invariant when a frame was torn or the final file was synced, and otherwise no more is durable than before |
| StoreSafety.RunKeeps | talea-store-log/src/writer.rs:370-893 | the invariant holds in every state every orderly run reaches: any run whose kills each tear a frame or find the final file synced |
| StoreGuarantees.CrashSafety | talea-store-log/src/lib.rs:198-320 | for every run and a power loss at any point, reopening succeeds with exactly the fsynced events followed by some prefix of the unsynced ones, all durable, the state their fold, and every answer ever given still true of the log |
| StoreGuarantees.DurableForever | talea-store-log/src/writer.rs:640-648 | what is durable once stays, event for event, and no Ok answer is ever contradicted, over any later steps, power losses and settled kills |
| StoreGuarantees.SnapshotIndependence | talea-store-log/src/lib.rs:201-275 | the newest snapshot, an older one or none give the same log, accounts, histories, sums, transaction index, counters and key lookups |
| StoreGuarantees.ExactlyOnce | talea-store-log/src/writer.rs:409-533 | over all orderly runs with retries, spills, merges, snapshots and restarts, each key labels at most one posted event, and every Ok ever given for it carries that durable event's id, number and time |
| StoreGuarantees.RetryIsDup | talea-store-log/src/writer.rs:479-488 | a commit whose key is in the log is answered with the log's record wherever the key is kept, and stages nothing |
| StoreGuarantees.ApplyAlwaysEnabled | talea-store-log/src/writer.rs:657-669 | once a batch is on disk its apply goes through: the fail-stop after the fsync is unreachable in every run |
| StoreGuarantees.LiveIsReplay | talea-store-log/src/writer.rs:461-679 | in every state of every run memory and index are the fold of the first applied events, all of them durable; between batches that is the whole log, numbered 1..N with times that never decrease, whatever the clocks read |
| AccountHistories.ReplayHistory | talea-store-log/src/state.rs:453-482 | an account exists exactly when the log opened it, and its history, balance and latest number are those of its postings in the log |
| AccountHistories.OpenedTerms | talea-store-log/src/state.rs:536-553 | every account has the definition and settings it was first opened with in the log |
| AccountHistories.MovementsOrdered | talea-store-log/src/writer.rs:515-530 | an account's postings come in the log's order of number and time |
| AccountHistories.HistorySorted | talea-store-log/src/state.rs:96-140 | the flat history of a replayed account is sorted by number and by time, which the binary searches need |
| Readers.AsOfFinds | talea-store-log/src/lib.rs:742-759 | the binary search lands on the signed sum of the postings up to t and the largest of their numbers, zero when there are none |
| Readers.BalanceIsSum | talea-store-log/src/lib.rs:734-761 | a balance, now or as of t, is the account's credits less its debits in the log if it was opened credit-normal and debits less credits otherwise, with the latest number |
| Readers.Balance | talea-store-log/src/lib.rs:718-762 | unknown exactly when the log never opened the account; otherwise, now or as of t, its credits less its debits if it was opened credit-normal, its debits less its credits if not |
| Readers.CurrentSums | talea-store-log/src/lib.rs:896-909 | the sums in memory are the capped sums of the whole log |
| Readers.SumUntil | talea-store-log/src/lib.rs:933-955 | the early stop loses nothing: the loop sums exactly the applied transactions at or before t |
| Readers.TrialBalanceAsOf | talea-store-log/src/lib.rs:910-955 | read from disk past whatever unapplied tail is there, the as-of sums are those of the applied events at or before t |
| TrialBalances.TrialTotals | talea-store-log/src/lib.rs:896-955 | the sums shown are the log's debits and credits of the asset, each added up over every posting and capped at the 64-bit maximum |
| Readers.TakeApplied | talea-store-log/src/lib.rs:1012-1020 | cutting a page at the watermark gives the page of the applied log |
| Readers.ReadEvents | talea-store-log/src/lib.rs:988-1021 | a page is the first `limit` applied events with `seq >= from`, never a frame not yet applied |
| Readers.TxIndex | talea-store-log/src/state.rs:520-522 | the transaction index has exactly the ids posted, each with the number and position of an event that posted it |
| Readers.PlacedReads | talea-store-log/src/segment.rs:201-256 | the position recorded with any event of the log reads back that event |
| Readers.FindTransaction | talea-store-log/src/lib.rs:835-872 | not found exactly when no transaction of the log has the id; found, it is the log's own event; the read never fails |
| Pages.CountPage | talea-store-log/src/lib.rs:804-825 | the counting loop is the walk that stops before one distinct number too many |
| Pages.AccountHistory | talea-store-log/src/lib.rs:779-828 | search to the cursor, then count: the page of the flat history, empty for limit 0 |
| Pages.PageIsWhole | talea-store-log/src/lib.rs:804-825 | a page starts at the cursor, splits no transaction, holds at most `limit` of them, and fewer only at the end |
| Pages.Clamped | talea-service/src/service.rs:340 | a requested page size from 1 to 1000 is served as asked, a smaller one as 1, a larger one as 1000 |
| Pages.Serve | talea-service/src/service.rs:330-352 | the served page and its cursor, computed in place |
| Pages.CursorResumes | talea-service/src/service.rs:346-352 | no cursor means nothing is left; a cursor is past the page, and what follows it is exactly the rest |
| Pages.PagesAreComplete | talea-service/src/service.rs:340-352 | whatever page sizes are asked for, following the cursor ends and the pages concatenate to the full history in order |
| Pages.PagesAreMovements | talea-store-log/src/lib.rs:779-828 | for a replayed account those pages are its postings in the log, each once and in order |
| Subscriptions.YieldsInOrder | talea-store-log/src/lib.rs:1075-1162 | under every interleaving of appends, syncs, applies, broadcasts, pages and ring overruns, a subscriber from f >= 1 is given exactly f, f+1, f+2, ..., each the log's own durable event |
| Subscriptions.NothingMissed | talea-store-log/src/lib.rs:1110-1156 | a live subscriber that has received what the ring holds has yielded every broadcast event from f on, lag included |
| Subscriptions.NeverStuck | talea-store-log/src/lib.rs:1083-1156 | its next step is enabled unless it is live with an empty ring |
| Subscriptions.CatchesUp | talea-store-log/src/lib.rs:1083-1156 | while the writer pauses, paging ends: from any state, lag included, a bounded number of its own steps leaves it live with an empty ring |
| Subscriptions.EverythingArrives | talea-store-log/src/lib.rs:1083-1156 | from any point of any run in which the writer has not stopped, some continuation gives the subscriber every event written so far, from its start on |
| Snapshots.LoadLatest | talea-store-log/src/snapshot.rs:107-139 | the newest file that passes its checks; none exactly when every file is invalid |
| Snapshots.Snapshots.PruneOld | talea-store-log/src/snapshot.rs:172-195 | exactly the two newest stay, and those whose removal failed |
| Snapshots.Snapshots.WriteSnapshot | talea-store-log/src/snapshot.rs:61-95 | before the rename nothing changed, after it the name holds the whole state, and success leaves the two newest; no name ever holds part of a file |
| Snapshots.KeepsTwo | talea-store-log/src/snapshot.rs:172-195 | after a write with every removal a success the directory holds two files, or the one there is, and nothing removed is newer than anything kept |
| SnapshotRecoveries.RecoverFrom | talea-store-log/src/lib.rs:215-275 | whichever files are missing, pruned or invalid after any orderly run and power loss, loading the newest valid one and replaying the tail recovers the whole surviving log |
| BookOpens.ReplayTail | talea-store-log/src/lib.rs:253-275 | the in-place replay loop fails exactly when the fold does and otherwise ends in the fold |
| BookOpens.RebuildIsNoHelp | talea-store-log/src/lib.rs:284-314 | the rebuild list repeats the replayed tail, which is hot already, so attaching keeps a key exactly when it could be found without the list |
| BookOpens.FoundExactly | talea-store-log/src/lib.rs:284-320 | over run files that missed nothing when stored, some damaged since, every key of the log is found again if and only if all of them are readable or every key from before the snapshot was still hot in it |
| BookOpens.TakenSnapshotsStored | talea-store-log/src/writer.rs:826-887 | every snapshot a running store takes, with the run files it has then, meets that premise |
| BookOpens.WithoutSnapshot | talea-store-log/src/lib.rs:234-237 | with no snapshot every key is found again, whatever the run files |
| BookOpens.OpenBook | talea-store-log/src/lib.rs:198-322 | accounts, histories, sums, transaction index and counters are always the whole log's, synced or not; the index answers every key of the log exactly under the condition above, and always without a snapshot |
| BookOpens.DamagedRunLosesKey | talea-store-log/src/lib.rs:297-320 | with one run unreadable, a key spilled before the snapshot is lost, although the log has it |
| BookOpens.LostKeyPostsAgain | talea-store-log/src/writer.rs:479-533 | and a retry of a lost key that validates is posted a second time |
| WriterReopens.Reopen | talea-store-log/src/lib.rs:198-322 | after a power loss or a settled kill, over run files and snapshots as the machine has them, the open is never refused and is the machine's own crash or kill step: the writer it makes stands for the state the machine reopens to, with every durable event and, after a kill, every event |
| WriterReopens.SomeStands | talea-store-log/src/writer.rs:352-370 | every consistent writer has a machine that stands for it, so what a batch does in the machine holds of every batch |
| WriterReopens.FreshStands | talea-store-log/src/lib.rs:198-236 | the writer of an empty book stands for the empty store |
| WriterReopens.StandingFinds | talea-store-log/src/segment.rs:342-434 | between batches any power loss, and any kill, leaves the files a reopen asks for |
| WriterReopens.StoppedFinds | talea-store-log/src/writer.rs:618-648 | so does any power loss after a writer stopped in a batch; a restart without one does when a frame was torn or the file synced |
| WriterReopens.AnswersStand | talea-store-log/src/writer.rs:409-533 | every Ok a writer ever gave, over any batches, spills, snapshots and restarts, names the one event of its log with that key, and its index answers a retry with that event's record |
| KilledRestarts.KilledExactly | talea-store-log/src/segment.rs:376-405 | a killed store, restarted from any retained snapshot or none, stays the replay of its log with every answer true in all orderly continuations, if and only if the kill tore a frame or the final file was synced, that is, no event was written and not synced |
| KilledRestarts.SnapshotAhead | talea-store-log/src/writer.rs:826-887 | after an unsynced kill a snapshot can outlive its events: one snapshot and one power loss later the log is the durable part and memory counts on past it |
| KilledRestarts.SnapshotLeavesGap | talea-store-log/src/lib.rs:215-247 | and the next event is numbered past the gap |
| KilledRestarts.RetryIsAnswered | talea-store-log/src/writer.rs:479-488 | a lone retry of a known key is answered Ok and syncs nothing |
| KilledRestarts.KilledLosesAck | talea-store-log/src/segment.rs:379-380 | with a transaction written but not synced, a retry after the restart is answered Ok with no sync, and a power loss can then take the transaction away |
| KilledRestarts.HastyKill | talea-store-log/src/writer.rs:616-648 | such a kill is two steps from a new store: a run that gets there, and is not safe |
| BatchMerges.AcquireWriters | talea-store-log/src/lib.rs:618-645 | each transaction is either pending or has its book's own error, in order, never both |
| BatchMerges.SubmitAll | talea-store-log/src/lib.rs:647-669 | receiver indexes and refusals match the transactions they belong to |
| BatchMerges.AwaitAll | talea-store-log/src/lib.rs:671-679 | replies are awaited in sending order; a dropped channel is an error in its place |
| BatchMerges.CommitBatch | talea-store-log/src/lib.rs:582-700 | results are positional: slot i is what transaction i is due, whatever books fail and whatever jobs are refused |
| WriteRouters.RunKeeps | talea-service/src/write_router.rs:80-203 | the invariant of channels, committers, map and answers holds under every interleaving |
| RouterBounds.RunBounded | talea-service/src/write_router.rs:130-203 | over every run no queue is longer than its depth and every batch handed over has between one and `batch_max` jobs |
| RouterBounds.SendExactly | talea-service/src/write_router.rs:87-96 | in any reached state a submitter is refused as overloaded if and only if its channel is open and holds exactly the queue depth, goes back to look up if and only if the channel is closed, and otherwise is queued last; nothing else changes |
| RouterBounds.RefusedForGood | talea-service/src/write_router.rs:89-93 | a refused job is in no channel, is never answered and stays refused |
| RouterBounds.HandsExactly | talea-service/src/write_router.rs:192-203 | a batch is closed exactly when it is full or nothing is queued, and the next queued job is taken otherwise |
| RouterBounds.SubmitterProgress | talea-service/src/write_router.rs:87-96 | a submitter that is not queued or refused always has a step |
| WriteRouters.RegisteredIsOpen | talea-service/src/write_router.rs:119-141 | a registered channel is open and belongs to its book, so a lookup never replaces a live entry |
| WriteRouters.ReapStep | talea-service/src/write_router.rs:157-165 | an idle committer finds its own channel under its book and removes that entry, keeping the invariant |
| WriteRouters.HandedOnceInOrder | talea-service/src/write_router.rs:151-189 | every accepted job is, in acceptance order, handed to `commit_batch`, in hand or queued: once, and in one channel only |
| WriteRouters.AnsweredWithOwnResult | talea-service/src/write_router.rs:191-203 | a job of a returned batch is answered with the result at its own index, and as gone when the results are too few |
| WriteRouters.QuietMeansAnswered | talea-service/src/write_router.rs:157-171 | a committer that exited, or waits on an empty queue, has handed over and answered every job it accepted |
| WriteRouters.CommitterProgress | talea-service/src/write_router.rs:151-175 | a committer with work left always has a step of its own |
| WriteRouters.RemovedByOwner | talea-service/src/write_router.rs:164-165 | a map entry leaves only when the committer it points to reaps itself |
| PgTables.FoldIsSums | talea-store-postgres/src/lib.rs:248-293 | a draft folds exactly when its accounts exist, hold its assets and no running sum leaves 64 bits; each delta is then the signed sum of the account's postings |
| PgTables.FoldTouches | talea-store-postgres/src/lib.rs:248-293 | there is a delta, even of zero, for exactly the accounts the postings name |
| PgDrafts.DraftExactly | talea-store-postgres/src/lib.rs:248-465 | which outcome a draft gets, from sums of its postings on the balances in the tables: reserved book, stored answer of a known key, first bad posting, counter or balance out of 64 bits, an account below its minimum, a used id, or a commit with the next number; and exactly what a commit stores |
| PgDrafts.CommitsExactly | talea-store-postgres/src/lib.rs:467-543 | a draft with a new key is committed if and only if its book is not reserved, its postings fold, counter and balances fit, no touched account ends below its minimum, and its id is new |
| PgDrafts.EachDraftExactly | talea-store-postgres/src/lib.rs:89-109 | each draft of the loop gets what it deserves over the tables the ones before it left |
| PgStores.AddDraft | talea-store-postgres/src/batch.rs:110-121 | totals, steps and last touch of every account stay those of the drafts added so far |
| PgStores.FoldDraft | talea-store-postgres/src/lib.rs:248-293 | the loop computes the specification's deltas or its error |
| PgStores.BuildWriteSet | talea-store-postgres/src/batch.rs:91-124 | the single pass sets duplicates aside, folds the rest and aggregates them; it aborts exactly when some draft does not validate |
| PgStores.ReplaySteps | talea-store-postgres/src/batch.rs:237-244 | the replay from the final balance back to the start says whether some running balance is below the minimum |
| PgStores.AnyReplayLow | talea-store-postgres/src/batch.rs:228-245 | the check over all accounts, in any order, is the prefix check of the drafts |
| PgStores.ClaimBalances | talea-store-postgres/src/batch.rs:171-226 | one range claim and one upsert, refused exactly when the counter or some balance leaves 64 bits |
| PgStores.InsertRows | talea-store-postgres/src/batch.rs:228-367 | check, then rows for every draft with consecutive numbers, refused on a repeated id |
| PgStores.WriteAll | talea-store-postgres/src/batch.rs:162-368 | the whole set in one transaction, or nothing |
| PgStores.PgStore.TryCommitBatchFast | talea-store-postgres/src/batch.rs:44-157 | answers and stores everything, or answers nothing and leaves the tables untouched |
| PgStores.PgStore.CommitDraft | talea-store-postgres/src/lib.rs:467-543 | one draft in its savepoint: the tables after it, or the tables before it and an error; with a new key it is committed if and only if it is committable over the integers |
| PgStores.PgStore.CommitPerDraft | talea-store-postgres/src/lib.rs:89-109 | drafts one after another, each failing alone |
| PgStores.PgStore.CommitBatch | talea-store-postgres/src/lib.rs:63-74 | the fast attempt, then the loop: nothing of an aborted attempt is left |
| PgSerial.SerialForm | talea-store-postgres/src/lib.rs:320-463 | draft by draft a write set goes through exactly when every running balance fits and stays above its minimum and ids are new, and then leaves the closed form: rows, counter, `updated_seq` and balances |
| PgRefinement.SetIsSerial | talea-store-postgres/src/batch.rs:162-368 | with every running balance in 64 bits, writing a set at once is writing it draft by draft, but for a total that does not fit, which refuses the set |
| PgRefinement.FastIsPerDraft | talea-store-postgres/src/batch.rs:1-8 | under the same condition the fast path gives the loop's tables and answers when all drafts commit, and otherwise aborts |
| PgRefinement.MisfitRejected | talea-store-postgres/src/lib.rs:320-383 | a running balance out of 64 bits makes some draft of the loop fail |
| PgRefinement.FastRefinesPerDraft | talea-store-postgres/src/batch.rs:228-245 | when the fast path answers, answers and tables are the loop's if and only if every running balance, draft by draft, fits in 64 bits |
| PgRefinement.CommittableIsFast | talea-store-postgres/src/batch.rs:91-147 | when every draft would commit one by one, no validation and no minimum check aborts the fast path; only an account total out of 64 bits does |
| PgRefinement.CommitBatchRefines | talea-store-postgres/src/lib.rs:63-74 | the batch as committed is the per-draft loop if and only if the fast path did not answer over a running balance that does not fit |
| PgRefinement.FastPathMissesOverflow | talea-store-postgres/src/batch.rs:228-245 | the one difference, with its input: an account without a minimum at the 64-bit maximum, one draft up and one down |
| Posts.CheckBalanced | talea-service/src/service.rs:230-238 | refuses exactly when some asset's debits and credits differ, and reports such an asset with its totals |
| Posts.AddToTotals | talea-service/src/service.rs:211-220 | totals stay the side sums of the postings so far; a failed checked addition means the sum does not fit |
| Posts.BuildPostings | talea-service/src/service.rs:200-229 | a refusal names a fault the draft has; otherwise the postings are the draft's, in order, all positive |
| Posts.Post | talea-service/src/service.rs:191-250 | a draft becomes a transaction if and only if it is well formed, positive, in range and balanced asset by asset; a refusal reports a fault the draft has |
| Conservation.PostConserves | talea-store-log/src/state.rs:453-510 | a balanced transaction that meets the minimums keeps the balances of each asset at zero in sum, debits equal to credits even at saturation, and touched accounts at their minimums |
| Conservation.BatchConserves | talea-store-log/src/writer.rs:461-679 | every event of a batch of service-built commits leaves a conserving book, whatever batchmates share accounts |
| ConservingRuns.DoubleEntryHolds | talea-service/src/service.rs:200-238 | in every state a store reaches on service-built commits, restarts included, raw balances of each asset sum to zero, lifetime debits equal credits, and every posted account meets its minimum |

## Left out

Contracts stated more narrowly than the code around them:

- GroupCommit.GroupCommitIsSerial: over several batches the theorem goes one way; the converse is GroupCommit.BatchIsSerial, for one batch. Times are outside the comparison, since they follow the clock, and so is which events a snapshot asked for in a batch covers.
- PgRefinement.FastRefinesPerDraft: timestamps are not part of the tables, so the fast path's one time per batch and the loop's one per draft are not compared. The counter is taken to be in the 64-bit range, as its column is.
- PgStores.PgStore.CommitDraft: one store instance at a time. The re-read after another instance wins a unique violation, lock waits, and failures of the connection itself are not modelled; a repeated transaction id is refused.
- BookStates.BookState.Validate: which of several accounts below their minimum is reported follows map order in the source, so any of them is allowed. Error texts are not modelled.
- BookStates.BookState.TryApplyTransaction: asks that the key is new or already bound to the same record; StoreGuarantees.ExactlyOnce is why callers meet that. After an overflow the state is left partly advanced, as in the source, and only its index is described.
- TieredIndex.TieredIdem.Insert: likewise never rebinds a key to another record.
- TieredIndex.TieredIdem.Restore: restores the set of hot keys, not their age order, as the source does.
- TieredIndex.TieredIdem.AttachDir: a listed file either reads whole or is damaged; a file that fails to read only the second time, for the filter, is not modelled.
- SegmentSets.ScanWithPos: read errors of the file system are not modelled; `scan_from` is the same walk without the positions and is not written out again.
- BookWriters.BookWriter.RunBatch: draining the queue is its parameter `jobs`, the clock readings are `now0` and `nows`, and I/O failures are `io`. Snapshot jobs are answered in queue order with the others, where the source answers them last.
- WriterReopens.Reopen: after a damaged run file, or with run files left over from a rebuild, the machine has no such step; those are point 2 and BookOpens.OpenBook. Run files and snapshots survive a power loss as the writer last left them, also those renamed but not yet synced. The order of the hot entries is a parameter, as the snapshot lists it.
- StoreGuarantees.ExactlyOnce: answers to commits; answers to opens and asset registrations are in BookWriters.ReplyAll but not kept in a run's history. Restarts read intact run files; point 2 above is the other case. Kills are settled ones; point 3 is the other case.
- StoreGuarantees.CrashSafety: torn appends and lost directory entries only. Damage inside synced bytes and checksum collisions are outside the crash model, and payloads must have a length that fits in 32 bits.
- BookOpens.FoundExactly: run files may be damaged, not deleted one by one; with some of several files missing, the source registers the others and asks for no rebuild.
- KilledRestarts.KilledExactly: a kill and the restart after it are one step. A kill during that restart, after the truncation and before its sync, is a kill between frames.
- Snapshots.Snapshots.WriteSnapshot: the file appears whole or not at all, by write, sync and rename; its checksum and JSON are the two cases of a directory entry, holding a state or invalid.
- BatchMerges.CommitBatch: the book writers, their queues and their replies are an environment; that each writer answers rightly is BookWriters.BookWriter.RunBatch.
- Posts.Post: which fault is reported when a draft has several is not fixed for the checks before the postings or for unbalanced assets; the reported one is always real. Metadata, references and the occurrence time travel as one opaque value.
- Conservation.BatchConserves: for transactions built by the service; the store itself does not check balance.
- WriteRouters.RunKeeps: committers do not panic. Submitters and committers are steps of a state machine rather than loops, since their interleaving is the point; channel capacity is a guard, idle time and back-pressure timing are free choices.
- Subscriptions.YieldsInOrder: also a state machine over interleavings. The ring drops its oldest entries at any time after its capacity is passed; a writer that stops closes the stream, after which nothing more is claimed.
- PostingIndexes.PushAppends: chunks are values; the sharing that makes cloning cheap for snapshots is not modelled.

Not modelled:

- Sequence numbers and offsets are unbounded naturals; a run appends only up to the signed 64-bit maximum.
- Uuids, clock readings and the two hashes of the filter are inputs.
- The asset registry, the `_system` book and its replay (`talea-store-log/src/lib.rs:268-273`).
- Row order of trial balances, and the views and wire formats of the service.
- `shutdown`, LOCK files, poisoned locks, and creating a book's directory on first use.
- A second process on the same files, LISTEN/NOTIFY, and races between Postgres instances.
- `talea-store-sqlite`: its commit path mirrors the per-draft loop.
- `talea-server`, `talea-client`, `talea-cli`, `talead`, `talea-bench`: routes, parsing and load generation.
