/** Batched persistence of recovered data (internal/platform/recovery_persistence.go, recovery_write.go):
    the image is synced before the map records that speak of it are written. */
module Persistence {
  import opened Prelude
  import opened Extents
  import opened Applying
  import opened Replaying
  import opened TornTails
  import opened Media
  import opened RecoveryMap
  import opened WriteAhead

  const MAX_PENDING_BYTES := 0x80_0000
  const MAX_PENDING_RECORDS := 256

  datatype CheckpointReason = Threshold | Interval | PassTransition | RecoveryReturn | Stop

  datatype CheckpointStats = CheckpointStats(count: nat, reason: Option<CheckpointReason>, bytes_: nat, records: nat)

  datatype PersistError = EmptyPayload | PayloadTooBig | ImageWriteFailed | ImageSyncFailed | MapFailed(store: StoreError)

  /** The image keeps every byte outside the range of the call. */
  ghost predicate UntouchedOutside(before: Contents, after: Contents, call: Write) {
    forall b: nat :: !call.Covers(b) ==> (b in after <==> b in before) && (b in before ==> after[b] == before[b])
  }

  ghost predicate Carries(contents: Contents, call: Write) {
    forall b: nat :: call.Covers(b) ==> b in contents && contents[b] == call.data[b - call.offset]
  }

  class RecoveryPersistence {
    const store: Store
    const medium: Medium
    var pendingRecoveredBytes: nat
    var pendingRecords: nat
    var stats: CheckpointStats

    ghost var ledger: Ledger
    ghost const base: Checkpoint
    ghost const header: Header
    ghost const shut: bool
    ghost const broken: bool
    ghost const first: nat

    /** Whether the run this serves may give sectors up. */
    ghost const mayGiveUp: bool

    ghost predicate Valid()
      reads this, store, medium
    {
      && medium == store.medium
      && store.Valid() && store.Coherent() && store.session.base == base && store.session.First() == first
      && store.header == header && store.closed == shut && pendingRecoveredBytes <= MAX_PENDING_BYTES
      && (medium.failed ==> broken || medium.faulty)
      && InOrder(medium.image, store.session, ledger, pendingRecoveredBytes)
      && AllCrashSafe(medium.history, store.start, store.session.First(), ledger)
    }

    /** No recovered data waits for a sync of the image. */
    ghost predicate DataDurable()
      reads this
    {
      pendingRecoveredBytes > 0 ==> ledger.synced == |ledger.calls|
    }

    /** Why persisting may fail, the map's rules aside: the storage failed, the store was closed before the run, or the
        sequence numbers are used up. The payload is the caller's. */
    ghost predicate Failing(e: PersistError)
      reads store, store.medium
    {
      match e
      case EmptyPayload => true
      case PayloadTooBig => true
      case ImageWriteFailed => store.medium.faulty
      case ImageSyncFailed => store.medium.faulty
      case MapFailed(StoreClosed) => shut
      case MapFailed(IOFailed) => store.medium.faulty
      case MapFailed(SequenceExhausted) => store.nextSequence == 0
      case MapFailed(Rejected(_)) => true
      case _ => false
    }

    /** newRecoveryPersistence: from here on the crash points of the session are recorded. */
    constructor (store: Store, ghost mayGiveUp: bool)
      requires store.Valid() && store.Coherent()
      modifies store.medium`history, store.medium`faulty
      ensures this.store == store && this.medium == store.medium && this.mayGiveUp == mayGiveUp
      ensures Valid() && ledger == FreshLedger(store.session) && first == store.session.First() && base == store.session.base
      ensures header == store.header && shut == store.closed && !store.medium.faulty && broken == store.medium.failed
      ensures pendingRecoveredBytes == 0 && pendingRecords == 0
      ensures medium.history == if medium.failed then [] else [medium.Now()]
    {
      hide InOrder, Consistent, CrashSafe;
      this.store, this.medium := store, store.medium;
      this.pendingRecoveredBytes, this.pendingRecords := 0, 0;
      this.stats := CheckpointStats(0, None, 0, 0);
      ghost var l := FreshLedger(store.session);
      this.ledger, this.base, this.first, this.mayGiveUp := l, store.session.base, store.session.First(), mayGiveUp;
      this.header, this.shut, this.broken := store.header, store.closed, store.medium.failed;
      new;
      store.medium.Restart();
      NothingCalled(store.medium.image, store.session, l);
      if !store.medium.failed {
        RestingIsSafe(store.medium.Now(), store.start, store.session, l, 0);
      }
    }

    method ForceCheckpoint(reason: CheckpointReason) returns (e: Option<PersistError>)
      requires Valid()
      modifies this`pendingRecoveredBytes, this`pendingRecords, this`stats, this`ledger
      modifies store`durableExtents, store`pendingRecords, store`pendingBytes, store`session, medium
      ensures Valid()
      ensures medium.image.Working() == old(medium.image.Working())
      ensures ledger.calls == old(ledger.calls) && ledger.recovered == old(ledger.recovered) && ledger.marks == old(ledger.marks) && ledger.sources == old(ledger.sources)
      ensures e.None? ==> pendingRecoveredBytes == 0 && (old(pendingRecoveredBytes) > 0 || old(store.pendingBytes) > 0 ==> pendingRecords == 0)
      ensures e.None? ==> store.session == Flushed(old(store.session)) && store.session.staged == []
      ensures stats == if e.Some? || (old(pendingRecoveredBytes) == 0 && old(store.pendingBytes) == 0) then old(stats)
                       else CheckpointStats(old(stats.count) + 1, Some(reason), old(pendingRecoveredBytes), old(pendingRecords))
      ensures e != Some(ImageSyncFailed) ==> DataDurable()
      ensures e.Some? ==> store.session == old(store.session) && (e.value == ImageSyncFailed || e.value == MapFailed(StoreClosed) || e.value == MapFailed(IOFailed))
      ensures e.Some? ==> Failing(e.value)
      ensures old(store.medium.faulty) ==> store.medium.faulty
    {
      hide InOrder, Consistent, CrashSafe, Flat, Journal, Recorded, Grows;
      if pendingRecoveredBytes == 0 && store.pendingBytes == 0 {
        NothingPending(store.session);
        return None;
      }
      if pendingRecoveredBytes > 0 {
        var synced := SyncOutput();
        if !synced {
          return Some(ImageSyncFailed);
        }
      }
      ghost var from, before, s := medium.Now(), medium.history, store.session;
      var flushed := store.Flush();
      FlushIsSafe(before, medium.history, from, old(medium.failed), store.start, s, ledger, pendingRecoveredBytes);
      if flushed.Some? {
        return Some(MapFailed(flushed.value));
      }
      StagedJournaled(medium.image, s, ledger, pendingRecoveredBytes);
      stats := CheckpointStats(stats.count + 1, Some(reason), pendingRecoveredBytes, pendingRecords);
      pendingRecoveredBytes, pendingRecords := 0, 0;
      return None;
    }

    /** The sync of the image before a checkpoint and at the end of a job (recovery_run_linux.go:47). */
    method SyncOutput() returns (ok: bool)
      requires Valid()
      modifies this`ledger, medium`image, medium`history, medium`faulty
      ensures store.medium.faulty == (old(store.medium.faulty) || !ok)
      ensures Valid() && medium.image.Working() == old(medium.image.Working())
      ensures ledger == old(ledger).(synced := if ok then |ledger.calls| else old(ledger).synced)
      ensures ok || old(DataDurable()) ==> DataDurable()
      ensures ok ==> medium.image.unsynced == []
    {
      hide InOrder, Consistent, CrashSafe, Journal;
      ghost var image, before := medium.image, medium.history;
      ok := medium.SyncImage();
      if ok {
        ImageSynced(image, store.session, ledger, pendingRecoveredBytes);
        WorkingAfterSync(image);
        AllSafeGrows(before, store.start, store.session.First(), ledger, ledger.(synced := |ledger.calls|));
        ledger := ledger.(synced := |ledger.calls|);
      }
      StillSafe(before, medium.history, medium.Now(), medium.failed, store.start, store.session, ledger, pendingRecoveredBytes);
    }

    /** writeFullAtWriter (recovery_write.go:31) for the latest call. */
    method WriteFullAt(data: bytes, offset: nat) returns (ok: bool)
      requires Valid() && ledger.calls != [] && ledger.calls[|ledger.calls|-1] == Write(offset, data)
      requires ledger.synced < |ledger.calls|
      modifies medium`image, medium`history, medium`faulty
      ensures Valid()
      ensures store.medium.faulty == (old(store.medium.faulty) || !ok)
      ensures UntouchedOutside(old(medium.image.Working()), medium.image.Working(), Write(offset, data))
      ensures ok ==> Carries(medium.image.Working(), Write(offset, data))
      ensures medium.image.synced == old(medium.image.synced)
    {
      hide InOrder, Consistent, CrashSafe, Journal, Numbered, UntouchedOutside, Carries, PartOf, Journalable, Written;
      var written := 0;
      ghost var call := Write(offset, data);
      Untouched(medium.image.Working(), call);
      assert data[..0] == [];
      CarriesNothing(medium.image.Working(), offset);
      while written < |data|
        invariant 0 <= written <= |data|
        invariant Valid() && medium.image.synced == old(medium.image.synced) && medium.faulty == old(medium.faulty)
        invariant UntouchedOutside(old(medium.image.Working()), medium.image.Working(), call)
        invariant Carries(medium.image.Working(), Write(offset, data[..written]))
        decreases |data| - written
      {
        ghost var image, before := medium.image, medium.history;
        var n, fine := medium.WriteImageAt(data[written..], offset + written);
        ghost var piece := Write(offset + written, data[written..][..n]);
        PieceOfCall(data, offset, written, n);
        PieceWritten(image, store.session, ledger, pendingRecoveredBytes, piece);
        StillSafe(before, medium.history, medium.Now(), medium.failed, store.start, store.session, ledger, pendingRecoveredBytes);
        WorkingAfterWrite(image, piece);
        PieceCarried(old(medium.image.Working()), image.Working(), data, offset, written, n);
        written := written + n;
        if !fine {
          return false;
        }
        if n == 0 {
          medium.faulty := true;
          return false;
        }
      }
      assert data[..written] == data;
      return true;
    }

    /** The data of this call, the latest one, is in the image as a reader sees it. */
    ghost predicate InImage(call: nat, extent: Extent)
      reads this, medium
    {
      && ledger.synced <= call < |ledger.calls| && call < |ledger.recovered| && ledger.recovered[call] == extent
      && Held(medium.image.Working(), ledger.calls, call)
    }

    /** The transition of such a call is staged and counted. */
    method StageCall(size: nat, extent: Extent, ghost call: nat) returns (e: Option<PersistError>)
      requires Valid() && 0 < size && pendingRecoveredBytes + size <= MAX_PENDING_BYTES && InImage(call, extent)
      modifies this`pendingRecoveredBytes, this`pendingRecords, this`ledger
      modifies store`extents, store`nextSequence, store`pendingRecords, store`pendingBytes, store`session
      ensures Valid()
      ensures e.None? ==> Apply(old(store.extents), extent) == Ok(store.extents)
      ensures e.None? ==> pendingRecoveredBytes == old(pendingRecoveredBytes) + size && pendingRecords == old(pendingRecords) + 1
      ensures e.Some? ==> store.extents == old(store.extents) && e.value.MapFailed? && Failing(e.value)
      ensures e.Some? && e.value.MapFailed? && e.value.store.Rejected? ==> Apply(old(store.extents), extent).Err?
      ensures e.None? ==> store.session.base == old(store.session.base) && store.session.written == old(store.session.written)
      ensures e.None? ==> store.session.staged == old(store.session.staged) + [extent]
      ensures ledger == if e.None? then old(ledger).(sources := old(ledger).sources + [Some(call)]) else old(ledger)
    {
      hide InOrder, Consistent, CrashSafe, Journal, Numbered, Apply, Held, RecordBytes, Journalable, AllCrashSafe, Staged;
      ghost var s, sequence := store.session, store.nextSequence;
      var staged := store.StageExtent(extent);
      if staged.Some? {
        return Some(MapFailed(staged.value));
      }
      ghost var record, pending := RecordBytes(sequence, extent), pendingRecoveredBytes;
      StagedIsStill(s, extent, store.extents, record);
      pendingRecoveredBytes := pendingRecoveredBytes + size;
      CallStaged(medium.image, s, ledger, pending, extent, store.extents, record, pendingRecoveredBytes, call);
      ghost var accounted := ledger.(sources := ledger.sources + [Some(call)]);
      AllSafeGrows(medium.history, store.start, s.First(), ledger, accounted);
      ledger := accounted;
      pendingRecords := pendingRecords + 1;
      return None;
    }

    /** The middle of PersistRecovered: the data is written to the image and its transition staged. */
    method WriteAndStage(data: bytes, offset: nat, extent: Extent) returns (e: Option<PersistError>)
      requires Valid() && 0 < |data| && pendingRecoveredBytes + |data| <= MAX_PENDING_BYTES
      modifies this`pendingRecoveredBytes, this`pendingRecords, this`ledger
      modifies store`extents, store`nextSequence, store`pendingRecords, store`pendingBytes, store`session, medium`image, medium`history, medium`faulty
      ensures Valid()
      ensures UntouchedOutside(old(medium.image.Working()), medium.image.Working(), Write(offset, data))
      ensures e.None? ==> Apply(old(store.extents), extent) == Ok(store.extents) && Carries(medium.image.Working(), Write(offset, data))
      ensures e.None? ==> pendingRecoveredBytes == old(pendingRecoveredBytes) + |data| && pendingRecords == old(pendingRecords) + 1
      ensures e.Some? ==> store.extents == old(store.extents) && (e.value.MapFailed? || e.value == ImageWriteFailed) && Failing(e.value)
      ensures e.Some? && e.value.MapFailed? && e.value.store.Rejected? ==> Apply(old(store.extents), extent).Err?
      ensures ledger.calls == old(ledger.calls) + [Write(offset, data)] && ledger.recovered == old(ledger.recovered) + [extent]
      ensures ledger.marks == old(ledger.marks)
      ensures medium.image.synced == old(medium.image.synced)
      ensures e.None? ==> store.session.base == old(store.session.base) && store.session.written == old(store.session.written)
      ensures e.None? ==> store.session.staged == old(store.session.staged) + [extent]
      ensures e.None? ==> ledger.sources == old(ledger.sources) + [Some(|old(ledger.calls)|)]
    {
      hide InOrder, Consistent, CrashSafe, Journal, Apply, UntouchedOutside, Carries, Held, Journalable, AllCrashSafe;
      ghost var call := Write(offset, data);
      CallBegins(medium.image, store.session, ledger, pendingRecoveredBytes, call, extent);
      AllSafeGrows(medium.history, store.start, store.session.First(), ledger, Called(ledger, call, extent));
      CallIsNew(medium.image, store.session, ledger, pendingRecoveredBytes);
      ledger := Called(ledger, call, extent);
      var ok := WriteFullAt(data, offset);
      if !ok {
        return Some(ImageWriteFailed);
      }
      ghost var last := |ledger.calls| - 1;
      CarriedIsHeld(medium.image.Working(), ledger.calls, last);
      e := StageCall(|data|, extent, last);
    }

    /** PersistRecovered (recovery_persistence.go:67): the data to the image, the transition to the stage, and a
        checkpoint when enough of either is pending or the interval has passed. */
    method PersistRecovered(data: bytes, offset: nat, extent: Extent) returns (e: Option<PersistError>)
      requires Valid()
      modifies this`pendingRecoveredBytes, this`pendingRecords, this`stats, this`ledger
      modifies store`extents, store`nextSequence, store`durableExtents, store`pendingRecords, store`pendingBytes, store`session, medium
      ensures Valid()
      ensures UntouchedOutside(old(medium.image.Working()), medium.image.Working(), Write(offset, data))
      ensures e.None? || store.extents != old(store.extents) ==>
                Apply(old(store.extents), extent) == Ok(store.extents) && Carries(medium.image.Working(), Write(offset, data))
      ensures e.Some? && e.value.MapFailed? && e.value.store.Rejected? ==> Apply(old(store.extents), extent).Err?
      ensures e == Some(EmptyPayload) <==> |data| == 0
      ensures e == Some(PayloadTooBig) <==> |data| > MAX_PENDING_BYTES
      ensures e.Some? ==> Failing(e.value)
      ensures |data| == 0 || |data| > MAX_PENDING_BYTES ==> store.session == old(store.session) && medium.image == old(medium.image)
      ensures e.None? ==> pendingRecoveredBytes < MAX_PENDING_BYTES && pendingRecords < MAX_PENDING_RECORDS
      ensures e.None? ==> ledger.calls == old(ledger.calls) + [Write(offset, data)]
      ensures ledger.marks == old(ledger.marks)
      ensures e.None? && pendingRecoveredBytes > 0 && old(pendingRecoveredBytes) == 0 ==>
                && store.session.base == old(store.session.base) && store.session.written == old(store.session.written)
                && store.session.staged == old(store.session.staged) + [extent]
                && ledger.sources == old(ledger.sources) + [Some(|old(ledger.calls)|)]
                && medium.image.synced == old(medium.image.synced) && medium.failed == old(medium.failed)
      ensures (ledger.calls == old(ledger.calls) && ledger.recovered == old(ledger.recovered)) ||
              (ledger.calls == old(ledger.calls) + [Write(offset, data)] && ledger.recovered == old(ledger.recovered) + [extent])
    {
      hide InOrder, Consistent, CrashSafe, Journal, Numbered, Apply, UntouchedOutside, Carries, Held;
      Untouched(medium.image.Working(), Write(offset, data));
      if |data| == 0 {
        return Some(EmptyPayload);
      }
      if |data| > MAX_PENDING_BYTES {
        return Some(PayloadTooBig);
      }
      if pendingRecoveredBytes > 0 && pendingRecoveredBytes + |data| > MAX_PENDING_BYTES {
        e := ForceCheckpoint(Threshold);
        if e.Some? {
          return;
        }
      }
      e := WriteAndStage(data, offset, extent);
      if e.Some? {
        return;
      }
      if pendingRecoveredBytes >= MAX_PENDING_BYTES || pendingRecords >= MAX_PENDING_RECORDS {
        e := ForceCheckpoint(Threshold);
        return;
      }
      var intervalPassed: bool := *;
      if intervalPassed {
        e := ForceCheckpoint(Interval);
        return;
      }
      return None;
    }

    /** ApplyExtent (recovery_persistence.go:60). */
    method ApplyExtent(extent: Extent) returns (e: Option<PersistError>)
      requires Valid()
      modifies this`pendingRecoveredBytes, this`pendingRecords, this`stats, this`ledger
      modifies store`extents, store`nextSequence, store`durableExtents, store`pendingRecords, store`pendingBytes, store`session, medium
      ensures Valid()
      ensures medium.image.Working() == old(medium.image.Working())
      ensures ledger.calls == old(ledger.calls) && ledger.recovered == old(ledger.recovered)
      ensures ledger.marks == old(ledger.marks) || ledger.marks == old(ledger.marks) + {extent}
      ensures e.None? ==> Apply(old(store.extents), extent) == Ok(store.extents)
      ensures e.Some? ==> store.extents == old(store.extents) && (e.value.MapFailed? || e.value == ImageSyncFailed) && Failing(e.value)
      ensures e.Some? && e.value.MapFailed? && e.value.store.Rejected? ==> Apply(old(store.extents), extent).Err?
    {
      hide Valid, Apply;
      e := ForceCheckpoint(PassTransition);
      if e.Some? {
        return;
      }
      e := Mark(extent);
    }

    /** The transition without data goes to the map at once, behind a checkpoint. */
    method Mark(extent: Extent) returns (e: Option<PersistError>)
      requires Valid() && pendingRecoveredBytes == 0 && store.session.staged == []
      modifies this`ledger
      modifies store`extents, store`nextSequence, store`durableExtents, store`pendingRecords, store`pendingBytes, store`session, medium
      ensures Valid()
      ensures medium.image == old(medium.image)
      ensures ledger.calls == old(ledger.calls) && ledger.recovered == old(ledger.recovered)
      ensures ledger.marks == old(ledger.marks) + {extent}
      ensures e.None? ==> Apply(old(store.extents), extent) == Ok(store.extents)
      ensures e.Some? ==> store.extents == old(store.extents) && e.value.MapFailed? && Failing(e.value)
      ensures e.Some? && e.value.MapFailed? && e.value.store.Rejected? ==> Apply(old(store.extents), extent).Err?
    {
      hide InOrder, Consistent, CrashSafe, AllCrashSafe, Journal, Journalable, Numbered, Apply, Flat, RecordBytes, Recorded, Grows, Appended, Flushed;
      MarkBegins(medium.image, store.session, ledger, pendingRecoveredBytes, extent);
      AllSafeGrows(medium.history, store.start, store.session.First(), ledger, Marked(ledger, extent));
      ledger := Marked(ledger, extent);
      ghost var from, before, s, failed := medium.Now(), medium.history, store.session, medium.failed;
      var applied, data := store.ApplyDurably(extent);
      ApplyIsSafe(before, medium.history, from, failed, store.start, s, ledger, extent, data);
      NothingFlushed(s);
      AppendedIsStill(s, extent, store.extents);
      if applied.Some? {
        return Some(MapFailed(applied.value));
      }
      MarkJournaled(medium.image, s, ledger, extent, store.extents);
      ghost var accounted := ledger.(sources := ledger.sources + [None]);
      AllSafeGrows(medium.history, store.start, store.session.First(), ledger, accounted);
      ledger := accounted;
      return None;
    }
  }

  /** Nothing recovered yet; what the store may already have staged came without data. */
  ghost function FreshLedger(s: Session): Ledger {
    Ledger([], [], set e | e in s.All(), seq(|s.All()|, _ => None), 0)
  }

  lemma NothingCalled(image: ImageFile, s: Session, l: Ledger)
    requires l == FreshLedger(s)
    ensures InOrder(image, s, l, 0)
  {
  }

  lemma NothingPending(s: Session)
    requires Consistent(s) && s.size == 0
    ensures s.staged == [] && Flushed(s) == s
  {
    FlatEmptyMeansNothing(s.records, s.firstPending, s.staged);
    NothingStaged(s);
  }

  lemma FlatEmptyMeansNothing(records: seq<bytes>, first: nat, staged: seq<Extent>)
    requires Buffers(first, staged, records, 0)
    ensures staged == []
  {
  }

  /** One more recorded state with the map where it was. */
  lemma StillSafe(h0: seq<Disk>, h1: seq<Disk>, d: Disk, failed: bool, start: bytes, s: Session, l: Ledger, pending: nat)
    requires h1 == (if failed then h0 else h0 + [d])
    requires AllCrashSafe(h0, start, s.First(), l) && InOrder(d.image, s, l, pending)
    requires !failed ==> Journalable(s.First(), s.written) && d.map_.unsynced == [] && d.map_.synced == start + Journal(s.First(), s.written)
    ensures AllCrashSafe(h1, start, s.First(), l)
  {
    hide CrashSafe, InOrder, Journal;
    if !failed {
      RestingIsSafe(d, start, s, l, pending);
    }
  }

  lemma FlushIsSafe(h0: seq<Disk>, h1: seq<Disk>, from: Disk, failed: bool, start: bytes, s: Session, l: Ledger, pending: nat)
    requires AllCrashSafe(h0, start, s.First(), l) && Recorded(h0, h1, from, Flat(s.records)) && (failed ==> h1 == h0)
    requires Consistent(s) && InOrder(from.image, s, l, pending) && (pending > 0 ==> l.synced == |l.calls|)
    requires !failed ==> Journalable(s.First(), s.written) && from.map_.unsynced == [] && from.map_.synced == start + Journal(s.First(), s.written)
    ensures AllCrashSafe(h1, start, s.First(), l)
  {
    hide CrashSafe, InOrder, Journal, Flat, Recorded;
    if !failed {
      FlushedConsistent(s, start);
      BodyOfSynced(from.map_);
      assert s.All() + [] == s.All();
      RecordedIsSafe(h0, h1, from, start, s, l, pending, [], Flat(s.records));
    }
  }

  lemma PieceOfCall(data: bytes, offset: nat, written: nat, n: nat)
    requires written + n <= |data|
    ensures PartOf(Write(offset + written, data[written..][..n]), Write(offset, data))
  {
  }

  lemma PieceCarried(before: Contents, contents: Contents, data: bytes, offset: nat, written: nat, n: nat)
    requires written + n <= |data|
    requires UntouchedOutside(before, contents, Write(offset, data)) && Carries(contents, Write(offset, data[..written]))
    ensures var after := Written(contents, Write(offset + written, data[written..][..n]));
            && UntouchedOutside(before, after, Write(offset, data))
            && Carries(after, Write(offset, data[..written + n]))
  {
    hide Written;
    PieceInside(before, contents, Write(offset + written, data[written..][..n]), Write(offset, data)) by {
      PieceOfCall(data, offset, written, n);
    }
    PieceExtends(contents, data, offset, written, n);
  }

  lemma PieceInside(before: Contents, contents: Contents, piece: Write, call: Write)
    requires UntouchedOutside(before, contents, call) && PartOf(piece, call)
    ensures UntouchedOutside(before, Written(contents, piece), call)
  {
    hide Written;
  }

  lemma PieceExtends(contents: Contents, data: bytes, offset: nat, written: nat, n: nat)
    requires written + n <= |data| && Carries(contents, Write(offset, data[..written]))
    ensures Carries(Written(contents, Write(offset + written, data[written..][..n])), Write(offset, data[..written + n]))
  {
    hide Written;
    var piece, part, whole := Write(offset + written, data[written..][..n]), Write(offset, data[..written]), Write(offset, data[..written + n]);
    var after := Written(contents, piece);
    forall b: nat | whole.Covers(b) ensures b in after && after[b] == whole.data[b - offset] {
      assert whole.data[b - offset] == data[b - offset];
      if !piece.Covers(b) {
        assert part.Covers(b);
        assert contents[b] == part.data[b - offset] == data[b - offset];
      }
    }
  }

  lemma Untouched(contents: Contents, call: Write)
    ensures UntouchedOutside(contents, contents, call)
  {
  }

  lemma StagedIsStill(s: Session, e: Extent, extents: seq<Extent>, record: bytes)
    ensures Staged(s, e, extents, record).First() == s.First() && Staged(s, e, extents, record).written == s.written
    ensures Staged(s, e, extents, record).base == s.base && Staged(s, e, extents, record).staged == s.staged + [e]
  {
  }

  lemma CarriesNothing(contents: Contents, offset: nat)
    ensures Carries(contents, Write(offset, []))
  {
  }

  lemma CallIsNew(image: ImageFile, s: Session, l: Ledger, pending: nat)
    requires InOrder(image, s, l, pending)
    ensures l.synced <= |l.calls| && |l.recovered| == |l.calls|
  {
  }

  lemma CarriedIsHeld(contents: Contents, calls: seq<Write>, c: nat)
    requires c < |calls| && Carries(contents, calls[c])
    ensures Held(contents, calls, c)
  {
  }

  lemma NothingFlushed(s: Session)
    requires Consistent(s)
    ensures s.staged == [] ==> Flushed(s) == s
  {
    NothingStaged(s);
  }

  lemma AppendedIsStill(s: Session, e: Extent, extents: seq<Extent>)
    ensures Appended(s, e, extents).First() == s.First() && Appended(s, e, extents).extents == extents && Appended(s, e, extents).base == s.base
  {
  }

  lemma ApplyIsSafe(h0: seq<Disk>, h1: seq<Disk>, from: Disk, failed: bool, start: bytes, s: Session, l: Ledger, extent: Extent, data: bytes)
    requires AllCrashSafe(h0, start, s.First(), l)
    requires Recorded(h0, h1, from, Flat(s.records) + data) && (failed ==> h1 == h0)
    requires data != [] ==> extent.Valid() && s.next != 0 && data == RecordBytes(s.next, extent)
    requires Consistent(s) && InOrder(from.image, s, l, 0) && extent in l.marks
    requires !failed ==> Journalable(s.First(), s.written) && from.map_.unsynced == [] && from.map_.synced == start + Journal(s.First(), s.written)
    ensures AllCrashSafe(h1, start, s.First(), l)
  {
    hide CrashSafe, InOrder, Journal, Flat, Recorded, RecordBytes;
    if data == [] {
      assert Flat(s.records) + data == Flat(s.records);
      FlushIsSafe(h0, h1, from, failed, start, s, l, 0);
    } else if !failed {
      FlushedConsistent(s, start);
      BodyOfSynced(from.map_);
      OneMoreJournaled(s, extent, start);
      Associative(from.map_.Body(), Flat(s.records), data);
      RecordedIsSafe(h0, h1, from, start, s, l, 0, [extent], Flat(s.records) + data);
    }
  }

  lemma OneMoreJournaled(s: Session, extent: Extent, start: bytes)
    requires Consistent(s) && extent.Valid() && s.next != 0
    ensures Journalable(s.First(), s.All()) && Journalable(s.First(), s.All() + [extent])
    ensures start + Journal(s.First(), s.All() + [extent]) == (start + Journal(s.First(), s.All())) + RecordBytes(s.next, extent)
  {
    hide Journal, RecordBytes, Flat, Next;
    NextIsAfterStaged(s);
    NumberedSnoc(s.First(), s.All(), s.next, extent);
    JournalConcat(s.First(), s.All(), s.next, [extent]);
    JournalOne(s.next, extent);
    Associative(start, Journal(s.First(), s.All()), RecordBytes(s.next, extent));
  }
}
