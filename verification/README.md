# Verified model of DiscRescue's recovery engine

This project models the part of DiscRescue that must not lose or invent data while it reads a damaged disc, and proves
what that part promises. `dafny verify dfyconfig.toml` checks everything.

What is modelled, from the bottom up:

- **The extent map** (`Transitions`, `Extents`, `Coalesce`, `Apply`). A sorted list of extents stands for a function
  from sectors to marks (state, confidence, attempts, capture, sense data, hash). Every list operation is judged by that
  function, `Extents.At`. Sector counts are 32-bit and wrap where the program's do.
- **The map file** (`Codec`, `Journal`, `Replay`, `TornTail`, `CheckpointCodec`). Extents, journal records and
  checkpoints at the byte level with their checksums, replay from a buffer and from a stream, and torn tails.
- **Storage and sessions** (`Medium`, `Store`, `Sessions`, `TornSessions`, `MapHistory`). The image and the map as files
  with durable and unsynced parts; outcomes of system calls are arbitrary. A ghost history keeps every state of the files
  a crash could meet. The store is a class with the program's fields; a ghost `Session` remembers its transitions.
- **Persistence** (`WriteAhead`, `Persistence`, `CrashRecovery`, `Closing`). Image before map: the protocol is proved from
  ledgers of what was handed over, one small lemma per step.
- **Recovery jobs** (`Runs`, `Device`, `Passes`, `RetryPasses`, `Accounting`, `Policy`, `Strategy`, `TidyMaps`, `Jobs`).
  The passes run over the persistence against a device whose every read may deliver, fall short, fail, be fatal or be
  cancelled. `Runs.Progress` relates two moments of a run and is transitive; every pass moves along it. A job opens or
  creates its map, runs the passes, syncs the image and closes the store.
- **Beside the engine**: the merge of captures (`MergeResolve`, `MergePlan`), the image writer (`ImageWriter`), the fast,
  trim and adaptive schedulers (`FastScheduler`, `TrimScheduler`, `Bisection`) and the catalog's log compaction
  (`Catalog`). `Sums`, `Requests` and `ByteOrder` serve them.

The main results:

- After a crash at any point of a job, whatever the device did, a sector the map newly claims was delivered by exactly
  one full read and the image holds the bytes of that read (`RecoveryJobs.Recover`, `RecoveryJobs.RecoverAnew`,
  `RecoveryRun.CrashedRunKeepsItsReads`). The points meant are all up to the first write or sync of the map that fails;
  those of the closing flush are among them unless the last sync of the image failed.
- A run never touches sectors already claimed, reads no sector more often than its limit leaves, counts every read in the
  map, never has an extent rejected, gives up no sector early, and ends with every sector accounted for: read in full it
  is a first copy, otherwise in error, and missing only where the policy gives sectors up.
- A job ends in an error only for cause: an unknown method, a cancellation, a fatal read, storage that failed, sequence
  numbers used up, or a block too large to wait for a checkpoint. Unless storage failed it is closed, done if its run
  was, and the map it leaves withdraws no claim and covers the medium; a retry has tried everything again.
- A checkpoint with any one byte damaged is refused, and so is a record damaged anywhere but in its length.
- In a merge the best evidence decides and nothing below it has a say; confidence comes from a capture that has it or from
  two that agree.
- From a coalesced list no pass reads a sector twice, and every map jobs write opens with a coalesced list. An explicit
  retry therefore reads no sector the map covered more often than the largest limit of its method: it stays within one
  policy budget, as the comment at `internal/platform/recovery_strategy.go:156-159` promises.
- A map that is created and goes through any number of sessions reads back, sector by sector, as the account of what they
  were told; when the storage fails, whatever a crash leaves reads as the account up to some transition of the last
  session (`MapHistory.KeepMap`).
- Applying an extent is the point-wise override of the sector function exactly when no run of equal marks reaches
  2^32 sectors, and succeeds exactly when every sector under it permits it.

Where the program does not do what it, or its documentation, promises, the model follows the program and says exactly when
the promise holds:

- Merging neighbours adds 32-bit counts (`internal/mapfile/extent_ops.go:31`). `Coalescing.CoalesceKeepsViewIff` gives
  the exact condition, `Coalescing.CoalesceCanLoseSectors` the smallest map that loses its sectors.
- `Open` leaves a torn tail in the file and appends behind it (`internal/recoverymap/store_open.go:11-36`). For every map
  that opens, all that sessions over it journal is read back if and only if its journal ends on a record boundary
  (`TornSessions.SessionsReadBackIff`); a session leaves one that does (`Sessions.SessionKeepsMapSound`).
- `Close` flushes whatever is staged without the image sync of a checkpoint. `Closing.CloseAfter` is safe when no data
  waits for the image. Otherwise the map it leaves claims the data of every pending call, and a crash keeps that data if
  and only if it was at rest in the image before (`Closing.CloseOverPending`). `Closing.CloseCanOutrunTheImage` is a
  session that ends with a claim and no byte of its data.
- The buffer replay ignores an incomplete last record; the stream replay rejects it when its head declares more than
  2^20 bytes (`Replaying.StreamRefinesBuffer`).
- A verified sector can be demoted to an unverified one (`TornTails.VerifiedCanBeDemoted`), but only by a journal that
  carries a checksum error for it (`Replaying.DemotionNeedsChecksumError`).
- Joining positioned writes compares wrapped 64-bit offsets. The runs have the effect of the writes if and only if no two
  neighbours join by wrapping (`ImageWriter.BuildPositionedWrites`, with a plan where they do in
  `ImageWriter.WrappedRunMisplaces`).
- The adaptive scheduler accepts a threshold of one. The pass then succeeds, whatever the answers, if and only if every
  schedulable range has at least 2^depth sectors for the depth limit (`Bisection.DriveAdaptivePass`,
  `Bisection.ThresholdOneFails`).

Sorting by the library is modelled by an insertion sort with the same order; only "an ordered permutation" is used of it.
Capacities below 2^32 sectors are assumed where a statement says so, because extents cannot count further.

## Model

| member | source | states |
|---|---|---|
| Extents.LookupExtent | internal/mapfile/extent_ops.go:51-58 | the first covering extent and its index, or none exactly when the sector is uncovered |
| Extents.CanonicalUnique | internal/mapfile/extent_ops.go:92-119 | coalesced lists that agree on every sector are equal |
| Coalescing.CoalesceExtents | internal/mapfile/extent_ops.go:92-119 | the loop refuses invalid lists and otherwise joins neighbours with the wrapping 32-bit sum |
| Coalescing.CoalesceKeepsViewIff | internal/mapfile/extent_ops.go:19-33 | coalescing keeps every sector's mark if and only if no run of mergeable neighbours reaches 2^32 sectors |
| Coalescing.CoalesceCanLoseSectors | internal/mapfile/extent_ops.go:31 | two extents of together 2^32 sectors coalesce to an empty one |
| Coalescing.CoalesceKeepsOrLoses | internal/mapfile/extent_ops.go:92-119 | even when counts wrap no sector gets a mark it did not have |
| Coalescing.CoalesceCanonical | internal/mapfile/extent_ops.go:92-119 | below the width limit the result is valid, maximally joined and shows the same sectors |
| Applying.ApplyExtent | internal/mapfile/extent_apply.go:8-48 | the splitting loop, sort and coalescing compute the list or the first objection that the lemmas below are about |
| Applying.ApplySucceedsIff | internal/mapfile/extent_apply.go:9-28 | accepted if and only if candidate and list are valid and every covered sector permits the transition without losing attempts |
| Applying.ApplyOverridesIff | internal/mapfile/extent_apply.go:30-48 | the result is the point-wise override if and only if no run of equal marks reaches 2^32 sectors |
| Applying.ApplyRefinesOverride | internal/mapfile/extent_apply.go:8-48 | within a capacity below 2^32 a permitted application succeeds, is the override, and leaves a canonical list within the capacity |
| Applying.ApplyTwice | internal/mapfile/extent_apply.go:8-48 | applying the same extent again gives the same list |
| Applying.DisjointAppliesCommute | internal/mapfile/extent_apply.go:8-48 | applications to disjoint ranges commute as lists, refusals included |
| Transitions.ReplacementIff | internal/mapfile/transitions.go:5-80 | which marks may replace which, state by state: the confidence levels of each state and its successors |
| ExtentCodec.MarshalExtent | internal/mapfile/codec.go:10-28 | field by field the buffer becomes the 39-byte form; invalid extents are refused |
| ExtentCodec.ExtentRoundTrip | internal/mapfile/codec.go:10-46 | valid extents read back, and accepted bytes re-encode to themselves |
| ExtentCodec.ExtentLayout | internal/mapfile/codec.go:16-25 | where each field of an extent lies |
| LittleEndian.DigitAt | internal/mapfile/codec.go:16-21 | byte i of a number is its i-th digit to the base 256 |
| Crc32c.ChecksumNotices | internal/mapfile/journal_codec.go:23 | data that differ in a single byte have different checksums |
| JournalCodec.MarshalJournalRecord | internal/mapfile/journal_codec.go:9-27 | the buffer filled in place is the framed record with its checksum, or the record's fault |
| JournalCodec.WrittenRecordReadsBackIff | internal/mapfile/journal_codec.go:9-64 | a written record reads back, whatever follows, if and only if its type has a code and an extent transition carries an extent |
| JournalCodec.ReadRecordRewrites | internal/mapfile/journal_codec.go:28-64 | an accepted record re-encodes to exactly the bytes consumed |
| JournalCodec.ProperPrefixIsTruncated | internal/mapfile/journal_codec.go:29-40 | every proper prefix of an encoded record decodes as truncated |
| JournalCodec.UnmarshalLocal | internal/mapfile/journal_codec.go:28-64 | bytes behind a record do not change how it reads |
| JournalCodec.FrameFields | internal/mapfile/journal_codec.go:18-24 | where each field of a record lies, the checksum over all before it last |
| JournalCodec.DamagedRecordRejected | internal/mapfile/journal_codec.go:42-46 | a record with one byte damaged outside its length is refused for its checksum, whatever follows |
| CheckpointCodec.MarshalCheckpoint | internal/mapfile/checkpoint_codec.go:9-42 | the offset-driven loops fill in the sealed checkpoint, or name what forbids it |
| CheckpointCodec.UnmarshalCheckpoint | internal/mapfile/checkpoint_codec.go:49-109 | the reading loops give the parsed checkpoint or the first fault, in the program's order |
| CheckpointCodec.CheckpointReadsBack | internal/mapfile/checkpoint_codec.go:9-109 | a written checkpoint reads back |
| CheckpointCodec.CheckpointRewrites | internal/mapfile/checkpoint_codec.go:49-109 | an accepted checkpoint re-encodes to the bytes read |
| CheckpointCodec.HeadFields | internal/mapfile/checkpoint_codec.go:22-26 | where the fields of a checkpoint head lie |
| CheckpointCodec.DamagedCheckpointRejected | internal/mapfile/checkpoint_codec.go:49-109 | a checkpoint with any one byte damaged is refused |
| Replaying.ReplayJournal | internal/mapfile/replay.go:24-62 | the buffer loop replays record by record, ends at a torn tail, and settles queued reads |
| Replaying.ReplayJournalReader | internal/mapfile/replay.go:77-131 | the stream loop does the same on heads and bodies read separately, unless one of its reads fails |
| Replaying.StreamRefinesBuffer | internal/mapfile/replay.go:77-131 | stream success means the same checkpoint from the buffer; of journals the buffer accepts the stream rejects exactly those with an oversized incomplete tail |
| Replaying.AbsorbConcat | internal/mapfile/replay.go:29-50 | behind whole records, replaying a concatenation is replaying the parts in turn |
| Replaying.ReplayComposes | internal/mapfile/replay.go:24-62 | replaying in two sessions, with settling between, has the outcome and the sector view of replaying at once |
| Replaying.QueuedForgotten | internal/mapfile/replay.go:52-57 | a queued sector is unknown again with its attempts, and no other changes |
| Replaying.ReplayAdvances | internal/mapfile/transitions.go:49-80 | over every accepted journal sectors stay covered, attempts never fall, data claims are never withdrawn, reconstructed is absorbing |
| Replaying.DemotionNeedsChecksumError | internal/mapfile/transitions.go:49-80 | an accepted journal after which a verified sector is no longer confirmed carries a checksum error transition over it |
| TornTails.VerifiedCanBeDemoted | internal/mapfile/transitions.go:49-80 | for every verified sector there is an accepted journal of two records that leaves it an unverified read |
| TornTails.TornTailReplays | internal/mapfile/replay.go:29-50 | for any records and any cut, replay gives that of the longest whole-record prefix |
| TornTails.AbsorbJournal | internal/mapfile/replay.go:43-49 | a journal of transitions replays as applying them one after another |
| TornTails.RecordsReplayIff | internal/mapfile/replay.go:29-50 | any records replay if and only if they continue the numbers of the checkpoint and the list accepts their extents one after another; records without an extent only count |
| TornTails.CutJournal | internal/mapfile/replay.go:29-50 | a journal of 57-byte transitions cut at any byte replays as the whole records before the cut |
| Media.WriteFull | internal/recoverymap/file_io.go:8-19 | repeated short writes append exactly the data or fail, and every file state passed through is a prefix of it |
| RecoveryMap.ReadState | internal/recoverymap/state_reader.go:22-84 | unless reading fails, the state is the checkpoint with the journal replayed within the geometry |
| RecoveryMap.StateIsSound | internal/recoverymap/state_reader.go:22-84 | a file that can be read has the geometry asked for and a valid list inside it, with nothing queued |
| RecoveryMap.StateRefused | internal/recoverymap/state_reader.go:75-77 | any other geometry is refused, and a file too short for a checkpoint |
| RecoveryMap.DamagedMapRefused | internal/recoverymap/state_reader.go:58-73 | a map whose checkpoint has one byte damaged outside its length is refused |
| RecoveryMap.Create | internal/recoverymap/store_create.go:11-43 | a new store with an empty checkpoint, sequence one, synced before it is returned |
| RecoveryMap.Open | internal/recoverymap/store_open.go:11-50 | the session begins with exactly the state the file reads as, the header marked in use |
| RecoveryMap.Store.PrepareExtent | internal/recoverymap/store_append.go:62-79 | the next list and the record for the next sequence number, or why not |
| RecoveryMap.Store.StageExtent | internal/recoverymap/store_append.go:23-37 | the transition is applied and its record buffered, or nothing changes |
| RecoveryMap.Store.AppendExtent | internal/recoverymap/store_append.go:39-61 | journals and syncs one transition before the fields change; the file passes only through prefixes of that record, and a failure changes no field |
| RecoveryMap.Store.ApplyDurably | internal/recoverymap/store_append.go:11-21 | ApplyExtent: pending records are flushed, then the transition is journaled and synced; the working extents change only when all of that succeeded |
| RecoveryMap.Store.Flush | internal/recoverymap/store_flush.go:11-33 | pending records become durable in order; a failure leaves the fields as they were |
| RecoveryMap.Store.Close | internal/recoverymap/store_close.go:11-34 | flushes what is staged; success means flushed and the header rewritten with the given cleanliness; closed in every case |
| Sessions.CutSessionReadsBack | internal/recoverymap/store_open.go:11-36 | any prefix of a session's records on a sound map reads as the base with the whole records of the prefix applied |
| Sessions.DurableReadsBack | internal/recoverymap/store_flush.go:11-33 | the file reads back as the durable view with queued reads forgotten, and its sequence resumes |
| Sessions.PendingAppliedToDurable | internal/recoverymap/store_append.go:23-36 | pending transitions applied to the durable extents give the working extents |
| Sessions.CrashReadsBack | internal/recoverymap/store_flush.go:15-31 | a crash at any byte of a flush reopens to the durable view plus a prefix of the pending transitions |
| Sessions.SessionKeepsMapSound | internal/recoverymap/store_close.go:11-34 | a session's journal ends on a record boundary again |
| Sessions.EmptyMapIsSound | internal/recoverymap/store_create.go:11-43 | a created map is sound and reads as empty |
| TornSessions.BehindTornTail | internal/mapfile/journal_codec.go:28-64 | behind a torn tail a record is read as nothing, as records without an extent, or as one transition made of shifted bytes |
| TornSessions.TornSessionLost | internal/recoverymap/store_open.go:11-36 | over every map that opens with a torn tail a session of one transition is not read back |
| TornSessions.SessionsReadBackIff | internal/recoverymap/store_open.go:11-36 | every session over a map that opens reads back if and only if its journal ends on a record boundary |
| MapHistory.RunSession | internal/recoverymap/store_append.go:11-37 | transitions staged, applied and flushed at will: the session has made all of them, or a failure leaves file states that some of them explain |
| MapHistory.CloseSession | internal/recoverymap/store_close.go:11-34 | a closed session leaves a sound map that reads as the account of all sessions; every crash point before reads as part of it |
| MapHistory.KeepMap | internal/recoverymap/store_open.go:11-50 | create and any sessions of stage, apply, flush, close and open: the file reads as the account of the script, a crash as the account of a part |
| WriteAhead.ImageSynced | internal/platform/recovery_persistence.go:109-113 | a sync makes the data of every staged transition durable |
| WriteAhead.StagedJournaled | internal/platform/recovery_persistence.go:115-118 | staged transitions may be journaled once their data is synced |
| WriteAhead.GrowingIsSafe | internal/platform/recovery_persistence.go:103-130 | every file state while the journal grows is safe to crash in |
| Persistence.RecoveryPersistence.constructor | internal/platform/recovery_persistence.go:47-50 | begins with nothing pending and every crash point safe |
| Persistence.RecoveryPersistence.ForceCheckpoint | internal/platform/recovery_persistence.go:103-130 | on success everything pending is durable, the counters are zero and the statistics tell what was pending; on failure the session stays as it was, and only a failed image sync leaves data waiting; crash points stay safe |
| Persistence.RecoveryPersistence.WriteFullAt | internal/platform/recovery_write.go:31-44 | success means the image carries the data; bytes outside its range never change |
| Persistence.RecoveryPersistence.WriteAndStage | internal/platform/recovery_persistence.go:79-86 | data written, transition staged and both counted, or the map unchanged |
| Persistence.RecoveryPersistence.PersistRecovered | internal/platform/recovery_persistence.go:67-94 | refuses exactly empty and oversized payloads; never more than 8 MiB pending, and success leaves fewer than 8 MiB and 256 records; whenever the map changed the image carries the data; crash points stay safe |
| Persistence.RecoveryPersistence.ApplyExtent | internal/platform/recovery_persistence.go:60-65 | applies and journals after a checkpoint, or leaves the map; the image is untouched |
| Persistence.RecoveryPersistence.SyncOutput | internal/platform/recovery_run_linux.go:47-50 | the final image sync keeps crash points safe and leaves no data waiting |
| CrashRecovery.MarkHasOrigin | internal/mapfile/extent_apply.go:8-48 | a sector's mark after transitions is its old one or that of a transition covering it, even when counts wrap |
| CrashRecovery.CutReadsFrom | internal/recoverymap/state_reader.go:22-84 | reading a map cut inside a session's journal is applying whole records to the unsettled state before |
| CrashRecovery.ClaimsAreBacked | internal/platform/recovery_persistence.go:60-130 | write-ahead: at any crash point a new data claim is a transition handed over without data, or one whose data any surviving image holds |
| Closing.CloseAfter | internal/recoverymap/store_close.go:11-34 | with no data waiting for the image every crash point of Close is safe; success leaves the journal of the whole session |
| Closing.OutlivesCrashesIff | internal/platform/recovery_persistence.go:108-113 | the data of a call is in every image a crash may leave if and only if all of it is synced and nothing older was written over it since |
| Closing.CloseOverPending | internal/recoverymap/store_close.go:15 | closing over a pending call: the map then reads as claiming its data, a crash keeps the data if and only if it was at rest, and every byte not yet durable can be missing |
| Closing.CloseCanOutrunTheImage | internal/recoverymap/store_close.go:15 | create, recover one sector, close: the map claims the sector and an image the crash may leave lacks its first byte |
| Devices.Device.ReadAt | internal/platform/recovery_read.go:14-27 | any count, error and bytes; the trace keeps all that the device said |
| Runs.ProgressThen | internal/platform/recovery_strategy.go:69-154 | progress over two stretches of a run is progress over both |
| Runs.Attempted | internal/platform/recovery_adaptive_pass.go:53-126 | a read with the mark that records it: attempts count it, a claim needs its full data in the image |
| Runs.AttemptLost | internal/platform/recovery_fast_pass.go:78-83 | a last read that ended the run unrecorded still stays within the limit and away from claimed sectors |
| Runs.ReadsWithinBudget | internal/platform/recovery_adaptive_pass.go:25-50 | the reads of a run are at most the attempts its limit leaves, summed over the sectors |
| Passes.Accepted | internal/platform/recovery_retry.go:40-51 | the map accepts every mark a pass can hand it |
| Passes.ReadQueued | internal/platform/recovery_adaptive_pass.go:90-125 | one read of the queued block; success leaves it a first copy if everything was delivered and an error otherwise; it ends in an error only for cause |
| Passes.AttemptDeferredBlock | internal/platform/recovery_adaptive_pass.go:53-126 | one read of exactly the part of the block inside its extent, queued before and decided after; nothing else changes; never rejected |
| Passes.ClipToGap | internal/platform/recovery_fast_pass.go:41-50 | the longest uncovered stretch at the sector up to the block size |
| Passes.AcquireBlock | internal/platform/recovery_fast_pass.go:55-92 | one read of the stretch, then a first copy or an error mark on it and nothing else |
| Passes.RunFastAcquisitionPass | internal/platform/recovery_fast_pass.go:12-96 | reads each uncovered sector once and no other, in whole blocks as far as the gap allows; success gives every one of them its first mark and changes nothing else |
| RetryPasses.SelectRetryable | internal/platform/recovery_retry.go:31-39 | the retryable extents in order |
| RetryPasses.StaysInRange | internal/platform/recovery_adaptive_pass.go:31-43 | from a canonical list, joins and splits behind the pass never carry an extent over the end of the range being read |
| RetryPasses.RetryRange | internal/platform/recovery_adaptive_pass.go:27-49 | every sector of the range below the limit is recovered or gains an attempt |
| RetryPasses.RunAdaptivePass | internal/platform/recovery_adaptive_pass.go:12-52 | every retryable sector below the limit is recovered or gains an attempt, in blocks of the given size; from a canonical list none is read twice and blocks are whole up to the end of a range |
| RetryPasses.TrimEdge | internal/platform/recovery_trim_pass.go:29-38 | one edge sector is attended to by at most one single-sector read |
| RetryPasses.RunTrimPass | internal/platform/recovery_trim_pass.go:11-42 | reads only the two edges of ranges of two sectors or more, each at most once, and attends to all of them |
| RetryPasses.FinalizeUnresolvedRanges | internal/platform/recovery_finalize.go:9-19 | exactly the retryable sectors become missing, with their attempts; nothing else changes |
| Accounting.SummarizeExtentStates | internal/platform/recovery_progress.go:19-35 | the loop's 64-bit sums are the tallies of the four classes |
| Accounting.TallyCountsSectors | internal/platform/recovery_progress.go:19-35 | in a valid list a tally counts the sectors of the class |
| Accounting.SummaryCountsStates | internal/platform/recovery_progress.go:19-35 | recovered, deferred and unreadable are the numbers of sectors in exactly these states |
| Accounting.FinalizedSummary | internal/platform/recovery_finalize.go:9-19 | after finalization nothing is deferred, and unreadable are the sectors that could be retried before, those missing already among them |
| Accounting.CompleteMapAccounted | internal/platform/recovery_progress.go:19-35 | on a map covering the medium without skips scanned is the capacity and so is recovered plus deferred plus unreadable |
| Accounting.UnresolvedMeansRetryable | internal/platform/recovery_progress.go:36-43 | the unresolved count is zero exactly when no sector is retryable |
| Policies.BuiltInPolicies | internal/recovery/policy.go:56-92 | the built-in policies are valid, begin with the fast pass and allow at most 2, 6 or 3 attempts |
| Policies.BuiltInPoliciesNarrow | internal/recovery/policy.go:56-92 | from pass to pass the built-in methods read smaller blocks and allow more attempts |
| Policies.RetryPolicyWithCurrentAttempts | internal/platform/recovery_retry.go:8-24 | every limit is raised by the largest attempts of a retryable extent, saturating, the caller's adaptive array in place |
| Policies.RetryPolicyIsValid | internal/platform/recovery_retry.go:8-24 | a raised policy is still valid |
| Policies.RetryLeavesRoom | internal/platform/recovery_retry.go:18-23 | below saturation every retryable extent is below the limit of every enabled pass of the raised policy |
| Policies.RetryRoundsWithinBudget | internal/platform/recovery_strategy.go:156-159 | a retry enables no more passes than the method, and no method has more behind the fast pass than its largest limit |
| RecoveryRun.RunAdaptivePasses | internal/platform/recovery_strategy.go:121-131 | after the passes an unread sector has an attempt more for every pass whose limit it had not reached; from a coalesced list none was read more often than passes are enabled |
| RecoveryRun.TrimDeferred | internal/platform/recovery_strategy.go:110-117 | a checkpoint and, if enabled, one more attempt at both ends of every retryable range of two sectors or more |
| RecoveryRun.RunPasses | internal/platform/recovery_strategy.go:97-147 | the passes in order make progress; success covers the medium, gives no sector up early, tries the edges of ranges in the trim pass besides, and with finalization leaves none deferred |
| RecoveryRun.RunPassBasedRecovery | internal/platform/recovery_strategy.go:69-154 | for any device: progress, reads within the budget and from a coalesced list at most one in each pass, a flush whatever the outcome, and an error only for a bad policy or geometry, a cancellation, a fatal read or failing storage, never for a rejected extent |
| RecoveryRun.ClaimedSectorsUntouched | internal/platform/recovery_strategy.go:69-154 | sectors claimed at the start keep entry and bytes and are never read |
| RecoveryRun.NewClaimIsItsRead | internal/platform/recovery_strategy.go:69-154 | a newly claimed sector has exactly one full read and the image holds its bytes |
| RecoveryRun.OnlyFullReadsWrite | internal/platform/recovery_fast_pass.go:59-92 | while every read of a sector brings another number of bytes than its range has, or an error before the end of the medium, its bytes stay and no claim appears |
| RecoveryRun.ReadsAreDecided | internal/platform/recovery_adaptive_pass.go:90-119 | after a stretch without error a sector that was read is a first copy if a read delivered it, else an error, or missing where the run may give up |
| RecoveryRun.NoneLeftQueued | internal/platform/recovery_adaptive_pass.go:90-119 | a stretch without error leaves no sector queued that was not queued before |
| RecoveryRun.UndeliveredEndsAs | internal/platform/recovery_finalize.go:9-19 | a sector that was read and never delivered ends in error, or missing with finalization |
| RecoveryRun.UnreadKeepsMark | internal/platform/recovery_strategy.go:97-147 | a sector that was not read keeps its mark, unless it was given up |
| RecoveryRun.AttemptsCountReads | internal/platform/recovery_adaptive_pass.go:82-89 | attempts grow by the reads of the sector, but for one read that may have ended the run, and never pass the larger of start and limit |
| RecoveryRun.BuiltInEffort | internal/recovery/policy.go:56-92 | after a run with a built-in policy an uncovered sector has data or at least 2, 4 or 3 attempts |
| RecoveryRun.RetryTriesAgain | internal/platform/recovery_retry.go:8-24 | a retry with a built-in method leaves every sector that could be retried with data or with 1, 3 or 2 more attempts, short of saturation |
| RecoveryRun.RunAccountsForEverySector | internal/platform/recovery_strategy.go:97-153 | after a successful run the 64-bit sums reported for recovered, deferred and unreadable add up to the capacity, deferred being zero with finalization |
| RecoveryRun.RunReportsDeferred | internal/platform/recovery_progress.go:19-35 | without finalization, from a map that gave nothing up, unreadable is zero and deferred the number of sectors that may still be read |
| RecoveryRun.CrashedRunKeepsItsReads | internal/platform/recovery_persistence.go:60-130 | at any crash point of a run a newly claimed sector was delivered by exactly one read of it and the image holds that read's bytes |
| TidyMaps.SettledCanonical | internal/mapfile/replay.go:52-57 | forgetting queued reads leaves a coalesced list coalesced when no sector was unknown |
| TidyMaps.CrashLeavesTidy | internal/platform/recovery_persistence.go:60-130 | whatever a crash leaves of a map jobs wrote is such a map again |
| RecoveryJobs.RunJob | internal/platform/recovery_run_linux.go:27-51 | run, image sync and close on an opened store: crash points keep every new claim with its one read; covered sectors are read at most as often as the method allows; a retry tries again; unless storage fails the job ends done or for cause, and the closed map reads as the run left it |
| RecoveryJobs.Recover | internal/platform/recovery_run_linux.go:12-51 | the same for a job over an existing map, retried or not: the map it leaves withdraws no claim, covers the medium, has tried again what was to be retried, and has a clean header just when the job was done or canceled |
| RecoveryJobs.RecoverAnew | internal/recoverymap/store_create.go:11-43 | the same for a job over a map created for it |
| RecoveryJobs.WholeJournalReads | internal/recoverymap/store_close.go:11-34 | a closed map reads as the extents of the whole session, queued reads forgotten, and is sound again |
| RecoveryJobs.JobLeft | internal/platform/recovery_job_linux.go:101-113 | what a run left in its extents is what the closed map reads as: claims, coverage and the attempts of a retry |
| MergeResolution.Filter | internal/merge/candidates.go:10-45 | the loop keeps the candidates of a kind in order |
| MergeResolution.CollectHashes | internal/merge/candidates.go:65-82 | the distinct hashes offered, ascending |
| MergeResolution.ResolveCandidates | internal/merge/resolve.go:21-64 | the early returns compute the rule cascade |
| MergeResolution.ResolveIsSymmetric | internal/merge/resolve.go:21-64 | permuting candidates changes at most which of several agreeing captures is named |
| MergeResolution.ResolveIsConservative | internal/merge/resolve.go:21-64 | data or conflict only where a capture offers data, and data only as a named candidate holds it |
| MergeResolution.TrustedDecides | internal/merge/resolve.go:22-27 | a trusted checksum decides unless another trusted checksum contradicts it |
| MergeResolution.BestDecides | internal/merge/resolve.go:22-55 | the best evidence decides, in the order trusted, reconstructed, verified, single read: when it conflicts, which capture is selected, with which mark and rule |
| MergeResolution.LowerChangesNothing | internal/merge/resolve.go:22-55 | candidates below the best evidence change neither the selected capture nor mark, rule, provenance or conflict |
| MergeResolution.ConfidenceHasSource | internal/merge/resolve.go:36-55 | confidence is that of the named candidate, or rests on two verified candidates, or single reads of two captures, that agree |
| MergeResolution.NoEvidence | internal/merge/resolve.go:57-64 | with no evidence the sector is missing, or conflicting if some capture offers data |
| MergeResolution.EvidenceFits | internal/merge/provenance.go:8-27 | each kind of evidence is listed exactly when the mark or rule stands on it |
| MergePlanning.CollectBoundaries | internal/merge/plan.go:16-47 | succeeds exactly for consistent captures, with every boundary collected |
| MergePlanning.ResolveSegment | internal/merge/resolve.go:13-20 | a segment is resolved from the extents that cover all of it |
| MergePlanning.SegmentCandidates | internal/merge/resolve.go:15-19 | between neighbouring boundaries every sector has the candidates of the segment |
| MergePlanning.AppendMergedExtent | internal/merge/coalesce.go:7-28 | joining neighbours keeps the tiling, the joins maximal and each sector's resolution |
| MergePlanning.BuildPlan | internal/merge/plan.go:11-68 | fails exactly for inconsistent captures; otherwise tiles the medium and agrees with the per-sector resolver |
| MergePlanning.TilesCover | internal/merge/plan.go:49-67 | in a plan every sector belongs to exactly one extent |
| MergePlanning.PlansAgree | internal/merge/plan.go:11-68 | plans for permuted captures agree on every sector apart from the selected capture |
| MergePlanning.AcceptableIsSymmetric | internal/merge/plan.go:11-47 | permuting captures preserves success |
| MergePlanning.PlanIsConservative | internal/merge/resolve.go:21-64 | where a plan shows data some capture offers data for that sector, and outside conflicts the named one does |
| MergePlanning.PlanListsItsHash | internal/merge/resolve.go:73-85 | the data hash of a data extent is among its candidate hashes |
| ImageWriter.BuildPositionedWrites | internal/image/writer.go:71-102 | fails exactly for invalid plans; the runs have the effect of the sector writes if and only if no neighbours join by wrapping, and are sorted, disjoint and maximal when no offset wraps |
| ImageWriter.RunsStayInside | internal/image/writer.go:57-59 | with a declared size no run writes beyond the last sector |
| ImageWriter.WrappedRunMisplaces | internal/image/writer.go:85-91 | a valid plan of two sectors whose neighbours join by wrapping |
| FastScheduling.SkipLength | internal/recovery/fast_pass.go:237-267 | the loop finds the length of the run of unknown sectors up to the limit |
| FastScheduling.RunIsMaximal | internal/recovery/fast_pass.go:237-267 | that run ends at the limit or at a sector that is not unknown |
| FastScheduling.ReplaceRangeState | internal/recovery/fast_pass.go:269-309 | fails exactly when the range touches an extent that is not unknown |
| FastScheduling.ReplaceIsPointwise | internal/recovery/fast_pass.go:269-309 | the replacement re-marks exactly the covered sectors of the range |
| FastScheduling.ApplyFailure | internal/recovery/fast_pass.go:224-236 | the failed sector is marked, the unknown run behind it skipped, nothing else; it cannot fail |
| FastScheduling.ResolveFastPass | internal/recovery/fast_pass.go:104-159 | an answer moves the cursor past exactly what it dealt with and keeps the scheduler's invariant |
| FastScheduling.RequestIsUnknown | internal/recovery/fast_pass.go:161-213 | a request asks for unknown sectors alone, the first at or behind the cursor: a whole cluster or up to the end of an extent, or one sector inside the boundary |
| FastScheduling.DispatchKeepsInvariant | internal/recovery/fast_pass.go:66-102 | no dispatch fails, and single mode always has a next sector |
| FastScheduling.DriveFastPass | internal/recovery/fast_pass.go:51-159 | for any answers the pass ends; unknown are exactly the sectors read once, all other initially unknown ones are failed or skipped |
| FastScheduling.AdaptiveTakesTheRest | internal/recovery/adaptive_pass.go:294-301 | every initially unknown sector the fast pass did not deliver is taken care of by the adaptive pass |
| TrimScheduling.ResolveStep | internal/recovery/trim_pass.go:107-167 | each answer moves one cursor over exactly its request or lowers the lexicographic measure |
| TrimScheduling.RequestInside | internal/recovery/trim_pass.go:179-204 | until done there is a request inside what remains, at the cursor of its side: one sector, or as large a part of the small cluster as remains |
| TrimScheduling.DriveTrimPass | internal/recovery/trim_pass.go:51-177 | for any answers the pass ends; successes tile the target around the remaining interior, whose ends failed as often as the budget says |
| Bisection.StartAdaptivePass | internal/recovery/adaptive_pass.go:67-99 | the queue holds each schedulable sector exactly once |
| Bisection.SchedulableIff | internal/recovery/adaptive_pass.go:294-301 | a pass leaves alone exactly what is queued or has data that no checksum contradicts |
| Bisection.DistanceIsNearest | internal/recovery/adaptive_pass.go:277-285 | the distance is that of the nearest sector of the extent |
| Bisection.HalvesMeet | internal/recovery/adaptive_pass.go:221-239 | the halves meet in the middle and differ by at most a sector, with one attempt and one split more |
| Bisection.DispatchAdaptivePass | internal/recovery/adaptive_pass.go:101-155 | takes the largest candidate, of those the least tried, nearest and first; defers exactly the small or deep ones, conserves the sectors; as long as no sector is queued twice it fails if and only if an action is active or, at threshold one, the foremost candidate is a single sector above the depth limit |
| Bisection.ResolveAdaptivePass | internal/recovery/adaptive_pass.go:157-210 | exactly the two halves are queued again, whatever the outcome; sectors are conserved and the measure falls |
| Bisection.SplitSucceedsIff | internal/recovery/adaptive_pass.go:221-239 | a candidate can be halved exactly when it has two sectors |
| Bisection.DriveAdaptivePass | internal/recovery/adaptive_pass.go:67-210 | for any answers and any threshold the pass ends within the measure; it succeeds if and only if the threshold is above one or every schedulable range has 2^depth sectors, and then the deferred extents partition the schedulable sectors |
| Bisection.ThresholdOneFails | internal/recovery/adaptive_pass.go:128-143 | a schedulable single sector is an input a pass with threshold one fails on |
| Catalog.RecordReadsBack | internal/catalog/journal_codec.go:9-54 | a written record reads back, whatever follows it |
| Catalog.DamagedRecordRejected | internal/catalog/journal_codec.go:25-54 | a record with one byte damaged outside its length is refused |
| Catalog.UpsertEntry | internal/catalog/store.go:35-52 | the first entry with the id is replaced, or the entry appended; malformed entries are refused |
| Catalog.UpsertOverrides | internal/catalog/store.go:35-52 | as a catalog by id, upserting is the override at one id |
| Catalog.Compact | internal/catalog/store_compact.go:8-36 | newest first, cut to the bounds; without bounds a permutation |
| Catalog.CompactionKeepsNewest | internal/catalog/store_compact.go:18-34 | nothing dropped was seen later than anything kept; what is kept comes latest first |
| Catalog.LatestKept | internal/catalog/store_compact.go:28-33 | of captures and jobs the latest are kept, as many as the bound allows |
| Catalog.ReplayJournal | internal/catalog/journal_apply.go:10-44 | the loop passes over old records, stops at a gap, applies the rest and validates |
| Catalog.TruncateJournalAfterSnapshot | internal/catalog/journal_apply.go:66-82 | the loop drops records up to the snapshot's sequence |
| Catalog.ReplayEncoded | internal/catalog/journal_apply.go:10-44 | a journal of consecutive records replays as applying them in order |
| Catalog.GapRefused | internal/catalog/journal_apply.go:29-31 | behind consecutive records one that skips a number is refused |
| Catalog.CompactionPreservesMeaning | internal/catalog/journal_apply.go:10-82 | from a snapshot taken midway, truncated and whole journal lead to the catalog and sequence of the original snapshot and whole journal |
| Catalog.CompactJournal | internal/catalog/journal_apply.go:58-82 | replaying, snapshotting and truncating in turn prepares any later replay to agree |

## Left out

- In-place header rewrites on open and close are atomic here, and the 135-byte header codec is not modelled.
- Opening, removing and locking files, identity binding of headers, and the startup transaction; crash points inside the creation and opening of a map.
- Clocks, durations and telemetry: the checkpoint interval is a choice the environment makes; read deadlines only shape what a read may return.
- Byte offsets are unbounded in the recovery passes; the program multiplies 64-bit sector numbers and sizes, so capacity times sector size is taken to stay below 2^63.
- The branches of persistRecoveredRead for stores without batching, and AppendExtent without sync, which nothing calls.
- InsertExtent and Extent.Transition, which the engine does not use, and the list-level Replay without a journal.
- Progress reports and error texts; error kinds are kept.
- Aliasing: slices returned and passed between functions are values here. ReplayJournal's settling loop writes the caller's slice when no record was replayed, catalog UpsertEntry and the adaptive scheduler's dispatch write and reorder their argument's slice; none of that is visible in the model.
- RecoveryMap.Store.Flush: after a failed write or sync nothing is promised about later flushes of the session, which append the pending records again.
- RetryPasses.RunAdaptivePass: that no sector is read twice is stated for a coalesced list at the start of the pass. A map that jobs wrote opens with one; a foreign map that holds unknown sectors beside queued ones need not (`TidyMaps.SettlingCanLeaveNeighbours`). The bound by attempts holds for every list.
- RecoveryRun.RunPassBasedRecovery: block sizes are stated by Passes.RunFastAcquisitionPass and RetryPasses.RunAdaptivePass and not repeated for the whole run.
- JournalCodec.DamagedRecordRejected: a damaged length may move the end of a record, so nothing is said of its four bytes; the same holds for RecoveryMap.DamagedMapRefused and Catalog.DamagedRecordRejected.
- MergePlanning.BuildPlan: the content identity is a sector count, the rest of the match key and a well-formedness bit.
- MergePlanning.PlansAgree: the selected capture may differ between orders of the captures, and attempts and data hash inside a joined extent are those of its first sector.
- ImageWriter.BuildPositionedWrites: that a wrapped join changes the effect is stated for buffers below 4 GiB, whose lengths the program compares after truncation; that the runs are disjoint and maximal for plans whose offsets do not wrap besides.
- Media.Medium.SyncImage: a failed sync leaves the written data pending, so that a later successful one makes it durable; systems that drop written pages after a failed sync are not part of this model.
- Catalog.CompactionPreservesMeaning: stated for unbounded compaction, unique record ids and whole records; nested entry codecs are a parameter, and torn catalog tails are not part of this model.
- The scrape scheduler, the job lifecycle, the coordinator, device discovery, integrity reports and the user interface.
