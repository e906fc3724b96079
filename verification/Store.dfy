/** The recovery map of one session: working, durable and pending extents over the map file
    (internal/recoverymap). */
module RecoveryMap {
  import opened Prelude
  import opened Transitions
  import opened Extents
  import opened Coalescing
  import opened Applying
  import opened LittleEndian
  import JournalCodec
  import opened Replaying
  import CheckpointCodec
  import opened TornTails
  import opened Media

  datatype StoreError =
    | StoreClosed | Rejected(apply: ApplyError) | SequenceExhausted | IOFailed
    | NoGeometry | WrongGeometry | MapTruncated | CheckpointTooBig
    | BadCheckpoint(checkpoint: CheckpointCodec.CheckpointError) | BadJournal(replay: ReplayError) | BadHeader

  datatype Geometry = Geometry(sectorSize: uint32, sectorCount: uint64)

  // ----- reading a map file

  /** The checkpoint bytes at the front of the body of a map file. */
  function CheckpointLength(body: bytes): (r: Result<nat, StoreError>)
    ensures r.Ok? ==> r.value <= |body|
  {
    if |body| < 10 then Err(IOFailed)
    else
      var payload := Read32(body[6..10]);
      if 14 + payload > |body| then Err(MapTruncated)
      else if payload > CheckpointCodec.MAX_CHECKPOINT_PAYLOAD then Err(CheckpointTooBig)
      else Ok(14 + payload)
  }

  /** readState (state_reader.go:22) after the header: the checkpoint with the journal replayed over it. */
  function StateOf(header: Header, body: bytes, geometry: Geometry): Result<Checkpoint, StoreError> {
    if geometry.sectorSize == 0 || geometry.sectorCount == 0 then Err(NoGeometry)
    else
      match CheckpointLength(body)
      case Err(e) => Err(e)
      case Ok(n) =>
        match CheckpointCodec.Unmarshal(body[..n], CheckpointCodec.DEFAULT_LIMITS)
        case Err(e) => Err(BadCheckpoint(e))
        case Ok(cp) =>
          if header.sectorSize != geometry.sectorSize || header.sectorCount != geometry.sectorCount then Err(WrongGeometry)
          else
            match Bounded(ReplayStream(cp, body[n..]), geometry.sectorCount)
            case Err(e) => Err(BadJournal(e))
            case Ok(state) => Ok(state)
  }

  /** What a file that can be read vouches for: the geometry asked for, and a valid list inside it. */
  lemma StateIsSound(header: Header, body: bytes, g: Geometry)
    requires StateOf(header, body, g).Ok?
    ensures 0 < g.sectorSize && 0 < g.sectorCount && header.sectorSize == g.sectorSize && header.sectorCount == g.sectorCount
    ensures ValidSet(StateOf(header, body, g).value.extents) && Within(StateOf(header, body, g).value.extents, g.sectorCount)
    ensures forall x: nat :: At(StateOf(header, body, g).value.extents, x).Some? ==>
              x < g.sectorCount && At(StateOf(header, body, g).value.extents, x).value.state != QUEUED
  {
    hide CheckpointLength, CheckpointCodec.Unmarshal, AbsorbStream, Settled;
    var n := CheckpointLength(body).value;
    var cp := CheckpointCodec.Unmarshal(body[..n], CheckpointCodec.DEFAULT_LIMITS).value;
    var unsettled := AbsorbStream(cp, body[n..]).value.extents;
    var extents := StateOf(header, body, g).value.extents;
    assert extents == Settled(unsettled);
    forall x: nat | At(extents, x).Some? ensures x < g.sectorCount && At(extents, x).value.state != QUEUED {
      QueuedForgotten(unsettled, x);
      WithinView(extents, g.sectorCount, x);
    }
  }

  /** Any other geometry is refused, and so is a file without a whole checkpoint. */
  lemma StateRefused(header: Header, body: bytes, g: Geometry)
    ensures g.sectorSize == 0 || g.sectorCount == 0 || header.sectorSize != g.sectorSize || header.sectorCount != g.sectorCount ==>
              StateOf(header, body, g).Err?
    ensures |body| < 26 ==> StateOf(header, body, g).Err?
  {
    hide ReplayStream, Read32, CheckpointCodec.Unmarshal;
    if |body| < 26 {
      CheckpointTooShort(body);
    }
  }

  lemma CheckpointTooShort(body: bytes)
    requires |body| < 26
    ensures CheckpointLength(body).Ok? ==> CheckpointCodec.Unmarshal(body[..CheckpointLength(body).value], CheckpointCodec.DEFAULT_LIMITS).Err?
  {
  }

  lemma MarshalledLength(cp: Checkpoint)
    requires CheckpointCodec.Marshal(cp).Ok?
    ensures var b := CheckpointCodec.Marshal(cp).value; |b| >= 26 && Read32(b[6..10]) == |b| - 14 <= CheckpointCodec.MAX_CHECKPOINT_PAYLOAD
  {
    hide CheckpointCodec.Head, CheckpointCodec.ExtentsBytes, Read32, Read64, Read16, LE;
    var b := CheckpointCodec.Marshal(cp).value;
    var n := |cp.extents|;
    CheckpointCodec.HeadFields(12 + 39 * n, cp.last, n);
    assert b[6..10] == CheckpointCodec.Head(12 + 39 * n, cp.last, n)[6..10];
  }

  /** A map whose checkpoint has one damaged byte is refused, whatever journal follows. Only a damaged length may move the
      place where the checkpoint ends. */
  lemma DamagedMapRefused(header: Header, cp: Checkpoint, journal: bytes, g: Geometry, i: nat, x: uint8)
    requires CheckpointCodec.Marshal(cp).Ok? && i < |CheckpointCodec.Marshal(cp).value| && !(6 <= i < 10)
    requires CheckpointCodec.Marshal(cp).value[i] != x
    ensures StateOf(header, CheckpointCodec.Marshal(cp).value[i := x] + journal, g).Err?
  {
    hide CheckpointCodec.Marshal, CheckpointCodec.Unmarshal, ReplayStream, Read32;
    var b := CheckpointCodec.Marshal(cp).value;
    var c := b[i := x];
    MarshalledLength(cp);
    assert (c + journal)[6..10] == c[6..10] == b[6..10];
    assert (c + journal)[..|b|] == c;
    CheckpointCodec.DamagedCheckpointRejected(cp, i, x, CheckpointCodec.DEFAULT_LIMITS);
  }

  method ReadState(file: MapFile, geometry: Geometry) returns (r: Result<Checkpoint, StoreError>)
    ensures r == Err(IOFailed) || r == Err(BadJournal(StreamFailed)) || r == StateOf(file.header, file.Body(), geometry)
  {
    if geometry.sectorSize == 0 || geometry.sectorCount == 0 {
      return Err(NoGeometry);
    }
    var unreadable: bool := *;
    if unreadable {
      return Err(IOFailed);
    }
    var body := file.Body();
    var length := CheckpointLength(body);
    if length.Err? {
      return Err(length.error);
    }
    var cp := CheckpointCodec.UnmarshalCheckpoint(body[..length.value], CheckpointCodec.DEFAULT_LIMITS);
    if cp.Err? {
      return Err(BadCheckpoint(cp.error));
    }
    if file.header.sectorSize != geometry.sectorSize || file.header.sectorCount != geometry.sectorCount {
      return Err(WrongGeometry);
    }
    var replayed := ReplayJournalReader(cp.value, body[length.value..]);
    if replayed.Err? {
      return Err(BadJournal(replayed.error));
    }
    if !ValidSetWithin(replayed.value.extents, geometry.sectorCount) {
      return Err(BadJournal(OutsideCapacity));
    }
    return Ok(replayed.value);
  }

  /** The records as they are kept in memory, one after another. */
  function Flat(records: seq<bytes>): bytes {
    if records == [] then [] else Flat(records[..|records|-1]) + records[|records|-1]
  }

  /** The 64-bit counter after counting to n, which is at most 2^64; zero then means exhausted. */
  function Sequence(n: nat): uint64 {
    if n < TWO_64 then n else 0
  }

  // ----- what a session's fields say, as values

  /** A session: the state it began with, the transitions journaled and pending since, and the store's fields. */
  datatype Session = Session(base: Checkpoint, written: seq<Extent>, staged: seq<Extent>,
                             extents: seq<Extent>, durable: seq<Extent>, next: uint64,
                             firstPending: nat, records: seq<bytes>, size: nat)
  {
    function First(): nat {
      base.last + 1
    }

    function All(): seq<Extent> {
      written + staged
    }
  }

  /** The transitions can be journaled from `first` on and `next` is the number after them. */
  ghost predicate Numbered(first: nat, session: seq<Extent>, next: uint64) {
    Journalable(first, session) && next == Sequence(first + |session|)
  }

  ghost predicate Reaches(from: seq<Extent>, session: seq<Extent>, extents: seq<Extent>) {
    ApplyAll(from, session) == Ok(extents)
  }

  /** The buffered records are the journal of the staged transitions. */
  ghost predicate Buffers(first: nat, staged: seq<Extent>, records: seq<bytes>, size: nat) {
    Journalable(first, staged) && Flat(records) == Journal(first, staged) && |records| == |staged| && size == |Flat(records)|
  }

  /** The fields agree: the working extents are the base with every transition applied, the durable ones with the
      journaled ones applied, and the buffer is the journal of the rest. */
  ghost predicate Consistent(s: Session) {
    && Numbered(s.First(), s.All(), s.next)
    && Reaches(s.base.extents, s.All(), s.extents)
    && Reaches(s.base.extents, s.written, s.durable)
    && s.firstPending == s.First() + |s.written|
    && Journalable(s.First(), s.written)
    && Buffers(s.firstPending, s.staged, s.records, s.size)
  }

  function Begun(base: Checkpoint): Session {
    Session(base, [], [], base.extents, base.extents, Sequence(base.last + 1), base.last + 1, [], 0)
  }

  function Staged(s: Session, e: Extent, extents: seq<Extent>, record: bytes): Session {
    s.(staged := s.staged + [e], extents := extents, next := Next(s.next), records := s.records + [record], size := s.size + |record|)
  }

  function Flushed(s: Session): Session {
    s.(written := s.All(), staged := [], durable := s.extents, firstPending := s.firstPending + |s.staged|, records := [], size := 0)
  }

  function Appended(s: Session, e: Extent, extents: seq<Extent>): Session {
    s.(written := s.written + [e], extents := extents, durable := extents, next := Next(s.next), firstPending := s.firstPending + 1)
  }

  lemma BegunConsistent(base: Checkpoint)
    requires base.last + 1 < TWO_64
    ensures Consistent(Begun(base))
  {
  }

  lemma NumberedSnoc(first: nat, session: seq<Extent>, next: uint64, e: Extent)
    requires Numbered(first, session, next) && next != 0 && e.Valid()
    ensures Numbered(first, session + [e], Next(next))
  {
    var s := session + [e];
    assert first + |session| == next;
    if next + 1 == TWO_64 {
      assert Wrap64(next + 1) == 0;
    } else {
      assert Wrap64(next + 1) == next + 1;
    }
    assert forall i :: 0 <= i < |s| ==> s[i].Valid();
  }

  lemma ReachesSnoc(from: seq<Extent>, session: seq<Extent>, extents: seq<Extent>, e: Extent, next: seq<Extent>)
    requires Reaches(from, session, extents) && Apply(extents, e) == Ok(next)
    ensures Reaches(from, session + [e], next)
  {
    hide Apply;
    ApplyAllSnoc(from, session, e);
  }

  lemma BuffersSnoc(first: nat, staged: seq<Extent>, records: seq<bytes>, size: nat, sequence: uint64, e: Extent, record: bytes, total: nat)
    requires Buffers(first, staged, records, size) && total == size + |record|
    requires e.Valid() && sequence == first + |staged| && sequence != 0 && record == RecordBytes(sequence, e)
    ensures Buffers(first, staged + [e], records + [record], total)
  {
    hide RecordBytes, Flat, Journal;
    JournalableOne(first, staged, e);
    JournalConcat(first, staged, sequence, [e]);
    JournalOne(sequence, e);
    FlatConcat(records, [record]);
    FlatOne(record);
  }

  lemma JournalableOne(first: nat, es: seq<Extent>, e: Extent)
    requires Journalable(first, es) && e.Valid() && first + |es| < TWO_64
    ensures Journalable(first, es + [e])
  {
  }

  lemma {:induction false} FlatConcat(a: seq<bytes>, b: seq<bytes>)
    ensures Flat(a + b) == Flat(a) + Flat(b)
  {
    if b == [] {
      assert a + b == a;
    } else {
      assert (a + b)[..|a + b|-1] == a + b[..|b|-1];
      FlatConcat(a, b[..|b|-1]);
      Associative(Flat(a), Flat(b[..|b|-1]), b[|b|-1]);
    }
  }

  lemma FlatOne(record: bytes)
    ensures Flat([record]) == record
  {
    assert Flat([record][..0]) == [];
  }

  lemma ConsistentParts(s: Session)
    requires Consistent(s)
    ensures Numbered(s.First(), s.All(), s.next) && Reaches(s.base.extents, s.All(), s.extents)
    ensures Reaches(s.base.extents, s.written, s.durable) && s.firstPending == s.First() + |s.written|
    ensures Journalable(s.First(), s.written) && Buffers(s.firstPending, s.staged, s.records, s.size)
  {
  }

  lemma ConsistentFrom(s: Session)
    requires Numbered(s.First(), s.All(), s.next) && Reaches(s.base.extents, s.All(), s.extents)
    requires Reaches(s.base.extents, s.written, s.durable) && s.firstPending == s.First() + |s.written|
    requires Journalable(s.First(), s.written) && Buffers(s.firstPending, s.staged, s.records, s.size)
    ensures Consistent(s)
  {
  }

  lemma StagedConsistent(s: Session, e: Extent, extents: seq<Extent>, record: bytes)
    requires Consistent(s) && Apply(s.extents, e) == Ok(extents) && e.Valid() && s.next != 0 && record == RecordBytes(s.next, e)
    ensures Consistent(Staged(s, e, extents, record))
    ensures Staged(s, e, extents, record).All() == s.All() + [e]
  {
    hide Apply, Reaches, Buffers, RecordBytes, Next, Numbered, Journalable, Consistent;
    var first, all, total := s.First(), s.All(), s.size + |record|;
    ConsistentParts(s);
    StagedAll(s, e, extents, record);
    NextIsAfterStaged(s);
    NumberedSnoc(first, all, s.next, e);
    ReachesSnoc(s.base.extents, all, s.extents, e, extents);
    BuffersSnoc(s.firstPending, s.staged, s.records, s.size, s.next, e, record, total);
    ConsistentFrom(Staged(s, e, extents, record));
  }

  lemma StagedAll(s: Session, e: Extent, extents: seq<Extent>, record: bytes)
    ensures Staged(s, e, extents, record).All() == s.All() + [e]
  {
    Associative(s.written, s.staged, [e]);
  }

  lemma NextIsAfterStaged(s: Session)
    requires Consistent(s) && s.next != 0
    ensures s.next == s.firstPending + |s.staged|
  {
  }

  lemma FlushedConsistent(s: Session, start: bytes)
    requires Consistent(s)
    ensures Consistent(Flushed(s)) && Flushed(s).All() == s.All()
    ensures Journalable(s.First(), s.written) && Journalable(s.First(), s.All())
    ensures start + Journal(s.First(), s.All()) == (start + Journal(s.First(), s.written)) + Flat(s.records)
  {
    hide Reaches, Journal, Flat;
    assert s.All() + [] == s.All();
    JournalConcat(s.First(), s.written, s.firstPending, s.staged);
    Associative(start, Journal(s.First(), s.written), Journal(s.firstPending, s.staged));
    NothingBuffered(s.firstPending + |s.staged|);
  }

  lemma NothingBuffered(first: nat)
    requires 0 < first <= TWO_64
    ensures Buffers(first, [], [], 0)
  {
  }

  lemma NothingStaged(s: Session)
    requires Consistent(s)
    ensures s.records == [] <==> s.staged == []
    ensures s.staged == [] ==> s.size == 0 && s.durable == s.extents && s.All() == s.written
  {
    if s.staged == [] {
      assert s.All() == s.written;
    }
  }

  lemma AppendedConsistent(s: Session, e: Extent, extents: seq<Extent>, start: bytes)
    requires Consistent(s) && s.staged == [] && Apply(s.extents, e) == Ok(extents) && e.Valid() && s.next != 0
    ensures Consistent(Appended(s, e, extents))
    ensures Journalable(s.First(), s.written) && Journalable(s.First(), s.written + [e])
    ensures start + Journal(s.First(), s.written + [e]) == (start + Journal(s.First(), s.written)) + RecordBytes(s.next, e)
  {
    hide Apply, Reaches, Journal, RecordBytes, Flat, Next;
    NothingStaged(s);
    assert (s.written + [e]) + [] == s.written + [e];
    NextIsAfterStaged(s);
    NumberedSnoc(s.First(), s.written, s.next, e);
    ReachesSnoc(s.base.extents, s.written, s.extents, e, extents);
    JournalConcat(s.First(), s.written, s.next, [e]);
    JournalOne(s.next, e);
    Associative(start, Journal(s.First(), s.written), RecordBytes(s.next, e));
    EmptyBuffer(s);
  }

  lemma EmptyBuffer(s: Session)
    requires Consistent(s) && s.staged == [] && s.firstPending + 1 <= TWO_64
    ensures Buffers(s.firstPending + 1, [], s.records, s.size)
  {
    NothingStaged(s);
  }

  // ----- one session

  /** Store (store.go:19). `session` follows the fields and remembers the session's transitions; `start` is the body
      of the file when the session began. */
  class Store {
    const medium: Medium
    var header: Header
    var extents: seq<Extent>
    var durableExtents: seq<Extent>
    var nextSequence: uint64
    var pendingBytes: nat
    var pendingRecords: seq<bytes>
    var closed: bool

    ghost var session: Session
    ghost const start: bytes

    ghost predicate Valid()
      reads this
    {
      && Consistent(session)
      && session.extents == extents && session.durable == durableExtents && session.next == nextSequence
      && session.records == pendingRecords && session.size == pendingBytes
    }

    /** Until a write or sync of the map fails, the file holds exactly the session's written journal, synced. */
    ghost predicate Coherent()
      reads this, medium
    {
      && medium.mapFile.header.Described() == header.Described()
      && (!medium.failed ==>
            && medium.mapFile.unsynced == []
            && Journalable(session.First(), session.written)
            && medium.mapFile.synced == start + Journal(session.First(), session.written))
    }

    constructor Began(medium: Medium, header: Header, base: Checkpoint, ghost start: bytes)
      requires base.last + 1 < TWO_64
      ensures this.medium == medium && this.header == header && this.start == start
      ensures Valid() && !closed && session == Begun(base)
    {
      BegunConsistent(base);
      this.medium := medium;
      this.header := header;
      this.extents, this.durableExtents := base.extents, base.extents;
      this.nextSequence := base.last + 1;
      this.pendingBytes, this.pendingRecords := 0, [];
      this.closed := false;
      this.start, this.session := start, Begun(base);
    }

    /** prepareExtent (store_append.go:62). */
    method PrepareExtent(extent: Extent) returns (r: Result<(seq<Extent>, bytes), StoreError>)
      ensures r.Ok? ==> Apply(extents, extent) == Ok(r.value.0) && extent.Valid()
      ensures r.Ok? ==> nextSequence != 0 && r.value.1 == RecordBytes(nextSequence, extent)
      ensures r.Err? ==> if nextSequence == 0 && Apply(extents, extent).Ok? then r.error == SequenceExhausted
                         else r.error.Rejected? && Apply(extents, extent) == Err(r.error.apply)
    {
      hide Apply, RecordBytes;
      var next := ApplyExtent(extents, extent);
      if next.Err? {
        return Err(Rejected(next.error));
      }
      ApplyOkPermits(extents, extent);
      if nextSequence == 0 {
        return Err(SequenceExhausted);
      }
      var record := JournalCodec.MarshalJournalRecord(ExtentRecord(nextSequence, extent));
      return Ok((next.value, record.value));
    }

    method StageExtent(extent: Extent) returns (e: Option<StoreError>)
      requires Valid()
      modifies this`extents, this`nextSequence, this`pendingRecords, this`pendingBytes, this`session
      ensures Valid()
      ensures e.None? ==> Apply(old(extents), extent) == Ok(extents) && extent.Valid() && old(nextSequence) != 0
                          && session == Staged(old(session), extent, extents, RecordBytes(old(nextSequence), extent))
      ensures e.Some? ==> session == old(session)
      ensures e.Some? ==> (e.value == StoreClosed && closed) || (e.value == SequenceExhausted && nextSequence == 0)
                          || (e.value.Rejected? && Apply(old(extents), extent).Err?)
    {
      hide Apply, Consistent, RecordBytes;
      if closed {
        return Some(StoreClosed);
      }
      var prepared := PrepareExtent(extent);
      if prepared.Err? {
        return Some(prepared.error);
      }
      var (next, record) := prepared.value;
      StagedConsistent(session, extent, next, record);
      session := Staged(session, extent, next, record);
      extents, nextSequence := next, Next(nextSequence);
      pendingRecords := pendingRecords + [record];
      pendingBytes := pendingBytes + |record|;
      return None;
    }

    /** Writes the records one after another and syncs the file. */
    method AppendSynced(records: seq<bytes>) returns (ok: bool)
      modifies medium`mapFile, medium`history, medium`failed, medium`faulty
      ensures ok ==> medium.failed == old(medium.failed)
      ensures medium.faulty == (old(medium.faulty) || !ok)
      ensures ok ==> medium.mapFile == MapFile(old(medium.mapFile.header), old(medium.mapFile.Body()) + Flat(records), [])
      ensures !ok ==> medium.failed && medium.mapFile.header == old(medium.mapFile.header)
      ensures Grows(medium.Now(), old(medium.Now()), Flat(records))
      ensures Recorded(old(medium.history), medium.history, old(medium.Now()), Flat(records))
      ensures old(medium.failed) ==> medium.failed && medium.history == old(medium.history)
    {
      hide Flat, Grows, Recorded;
      ghost var from := medium.Now();
      FlatOfPrefix(records, 0);
      PartWritten(medium.Now(), from, [], [], []);
      RecordedNothing(medium.history, from);
      for i := 0 to |records|
        invariant medium.failed == old(medium.failed) && medium.faulty == old(medium.faulty)
        invariant medium.mapFile == from.map_.(unsynced := from.map_.unsynced + Flat(records[..i]))
        invariant Grows(medium.Now(), from, Flat(records[..i]))
        invariant Recorded(old(medium.history), medium.history, from, Flat(records[..i]))
        invariant medium.failed ==> medium.history == old(medium.history)
      {
        ghost var done := Flat(records[..i]);
        ghost var middle, before := medium.Now(), medium.history;
        ok := WriteFull(medium, records[i]);
        FlatOfPrefix(records, i + 1);
        BodyOfAppended(middle, from, done);
        GrowsThen(medium.Now(), middle, from, done, records[i]);
        RecordedThen(old(medium.history), before, medium.history, from, middle, done, records[i]);
        if !ok {
          FlatConcat(records[..i+1], records[i+1..]);
          assert records == records[..i+1] + records[i+1..];
          GrowsMore(medium.Now(), from, Flat(records[..i+1]), Flat(records[i+1..]));
          RecordedMore(old(medium.history), medium.history, from, Flat(records[..i+1]), Flat(records[i+1..]));
          return false;
        }
        Associative(from.map_.unsynced, done, records[i]);
      }
      assert records[..|records|] == records;
      ghost var appended, before := medium.Now(), medium.history;
      BodyOfAppended(appended, from, Flat(records));
      ok := medium.SyncMap();
      SyncedGrows(medium.Now(), appended, from, Flat(records));
      RecordedOneMore(old(medium.history), before, medium.history, medium.Now(), from, Flat(records));
    }

    method Flush() returns (e: Option<StoreError>)
      requires Valid() && Coherent()
      modifies this`durableExtents, this`pendingRecords, this`pendingBytes, this`session
      modifies medium`mapFile, medium`history, medium`failed, medium`faulty
      ensures Valid() && Coherent()
      ensures e.None? ==> session == Flushed(old(session)) && !closed && medium.failed == old(medium.failed)
      ensures e.Some? ==> session == old(session) && e.value == (if closed then StoreClosed else IOFailed)
      ensures medium.faulty == (old(medium.faulty) || e == Some(IOFailed)) && (medium.failed ==> old(medium.failed) || medium.faulty)
      ensures Grows(medium.Now(), old(medium.Now()), old(Flat(pendingRecords)))
      ensures Recorded(old(medium.history), medium.history, old(medium.Now()), old(Flat(pendingRecords)))
      ensures old(medium.failed) ==> medium.failed && medium.history == old(medium.history)
      ensures e.None? ==> medium.mapFile.Body() == old(medium.mapFile.Body()) + old(Flat(pendingRecords))
    {
      hide Consistent, Flat, Journal, Grows, Recorded;
      ghost var from, pending := medium.Now(), Flat(pendingRecords);
      NothingYet(medium.history, from, pending);
      FlushedConsistent(session, start);
      NothingStaged(session);
      if closed {
        return Some(StoreClosed);
      }
      if |pendingRecords| == 0 {
        FlatOfPrefix(pendingRecords, 0);
        assert pendingRecords[..0] == pendingRecords;
        assert from.map_.Body() + [] == from.map_.Body();
        session := Flushed(session);
        return None;
      }
      var sought := medium.SeekEnd();
      if !sought {
        return Some(IOFailed);
      }
      var ok := AppendSynced(pendingRecords);
      if !ok {
        return Some(IOFailed);
      }
      BodyOfSynced(medium.mapFile);
      pendingBytes, pendingRecords := 0, [];
      durableExtents := extents;
      session := Flushed(session);
      return None;
    }

    /** appendExtent (store_append.go:39), which its only caller asks to sync. `data` is what it set out to append. */
    method AppendExtent(extent: Extent) returns (e: Option<StoreError>, ghost data: bytes)
      requires Valid() && Coherent() && session.staged == []
      modifies this`extents, this`durableExtents, this`nextSequence, this`session
      modifies medium`mapFile, medium`history, medium`failed, medium`faulty
      ensures Valid() && Coherent()
      ensures e.None? ==> Apply(old(extents), extent) == Ok(extents) && session == Appended(old(session), extent, extents)
      ensures e.Some? ==> session == old(session)
      ensures e.Some? ==> (e.value == SequenceExhausted && nextSequence == 0) || e.value == IOFailed
                          || (e.value.Rejected? && Apply(old(extents), extent).Err?)
      ensures medium.faulty == (old(medium.faulty) || e == Some(IOFailed)) && (medium.failed ==> old(medium.failed) || medium.faulty)
      ensures e.None? ==> data != [] && medium.failed == old(medium.failed)
      ensures data != [] ==> Apply(old(extents), extent).Ok? && extent.Valid() && old(nextSequence) != 0
                             && data == RecordBytes(old(nextSequence), extent)
      ensures Recorded(old(medium.history), medium.history, old(medium.Now()), data)
      ensures old(medium.failed) ==> medium.failed && medium.history == old(medium.history)
    {
      hide Apply, Consistent, Journal, RecordBytes, Grows, Recorded, Flat;
      data := [];
      ghost var from := medium.Now();
      NothingYet(medium.history, from, []);
      var prepared := PrepareExtent(extent);
      if prepared.Err? {
        return Some(prepared.error), data;
      }
      var (next, record) := prepared.value;
      var sought := medium.SeekEnd();
      if !sought {
        return Some(IOFailed), data;
      }
      data := record;
      var ok := AppendPrepared(extent, next, record);
      return if ok then None else Some(IOFailed), data;
    }

    /** The second half: the record is written and synced before any field changes. */
    method AppendPrepared(extent: Extent, next: seq<Extent>, record: bytes) returns (ok: bool)
      requires Valid() && Coherent() && session.staged == []
      requires Apply(extents, extent) == Ok(next) && extent.Valid() && nextSequence != 0 && record == RecordBytes(nextSequence, extent)
      modifies this`extents, this`durableExtents, this`nextSequence, this`session
      modifies medium`mapFile, medium`history, medium`failed, medium`faulty
      ensures Valid() && Coherent()
      ensures ok ==> extents == next && session == Appended(old(session), extent, next) && medium.failed == old(medium.failed)
      ensures !ok ==> session == old(session)
      ensures medium.faulty == (old(medium.faulty) || !ok)
      ensures Recorded(old(medium.history), medium.history, old(medium.Now()), record)
      ensures old(medium.failed) ==> medium.failed && medium.history == old(medium.history)
    {
      hide Apply, Consistent, Journal, Journalable, RecordBytes, Grows, Recorded, Flat, Next;
      FlatOne(record);
      AppendedConsistent(session, extent, next, start);
      BodyOfSynced(medium.mapFile);
      ok := AppendSynced([record]);
      if ok {
        extents, durableExtents, nextSequence := next, next, Next(nextSequence);
        session := Appended(session, extent, next);
      }
    }

    /** ApplyExtent (store_append.go:11): the pending records first, then the transition itself, synced. */
    method ApplyDurably(extent: Extent) returns (e: Option<StoreError>, ghost data: bytes)
      requires Valid() && Coherent()
      modifies this`extents, this`durableExtents, this`nextSequence, this`pendingRecords, this`pendingBytes, this`session
      modifies medium`mapFile, medium`history, medium`failed, medium`faulty
      ensures Valid() && Coherent()
      ensures e.None? ==> Apply(old(extents), extent) == Ok(extents) && session == Appended(Flushed(old(session)), extent, extents)
      ensures e.Some? ==> session == old(session) || session == Flushed(old(session))
      ensures e.Some? ==> (e.value == StoreClosed && closed) || (e.value == SequenceExhausted && nextSequence == 0) || e.value == IOFailed
                          || (e.value.Rejected? && Apply(old(extents), extent).Err?)
      ensures medium.faulty == (old(medium.faulty) || e == Some(IOFailed)) && (medium.failed ==> old(medium.failed) || medium.faulty)
      ensures e.None? ==> data != [] && medium.failed == old(medium.failed)
      ensures data != [] ==> Apply(old(extents), extent).Ok? && extent.Valid() && old(nextSequence) != 0
                             && data == RecordBytes(old(nextSequence), extent)
      ensures Recorded(old(medium.history), medium.history, old(medium.Now()), old(Flat(pendingRecords)) + data)
      ensures old(medium.failed) ==> medium.failed && medium.history == old(medium.history)
    {
      hide Apply, Consistent, Journal, RecordBytes, Grows, Recorded, Flat;
      data := [];
      ghost var from, pending := medium.Now(), Flat(pendingRecords);
      assert pending + [] == pending;
      if closed {
        NothingYet(medium.history, from, pending);
        return Some(StoreClosed), data;
      }
      e := Flush();
      if e.Some? {
        return e, data;
      }
      ghost var middle, before := medium.Now(), medium.history;
      e, data := AppendExtent(extent);
      RecordedThen(old(medium.history), before, medium.history, from, middle, pending, data);
    }

    /** Close (store_close.go:11). */
    method Close(clean: bool) returns (e: Option<StoreError>)
      requires Valid() && Coherent()
      modifies this`header, this`closed, this`durableExtents, this`pendingRecords, this`pendingBytes, this`session
      modifies medium`mapFile, medium`history, medium`failed, medium`faulty
      ensures Valid() && Coherent() && closed
      ensures session == old(session) || session == Flushed(old(session))
      ensures e.Some? ==> e.value == IOFailed || (e.value == BadHeader && !old(header).Valid())
      ensures medium.faulty == (old(medium.faulty) || e == Some(IOFailed)) && (medium.failed ==> old(medium.failed) || medium.faulty)
      ensures e.None? && !old(closed) ==>
                && session == Flushed(old(session)) && header == old(header).(clean := clean) && medium.mapFile.header == header
                && medium.failed == old(medium.failed)
      ensures Recorded(old(medium.history), medium.history, old(medium.Now()), old(Flat(pendingRecords)))
      ensures old(medium.failed) ==> medium.failed && medium.history == old(medium.history)
    {
      hide Consistent, Journal, Grows, Recorded, Flat;
      ghost var from, pending := medium.Now(), Flat(pendingRecords);
      NothingYet(medium.history, from, pending);
      if closed {
        return None;
      }
      e := Flush();
      closed := true;
      if e.Some? {
        return e;
      }
      header := header.(clean := clean);
      if !header.Valid() {
        return Some(BadHeader);
      }
      ghost var flushed, h1 := medium.Now(), medium.history;
      var ok := medium.WriteHeader(header);
      ghost var headed, h2 := medium.Now(), medium.history;
      HeaderGrows(headed, flushed, from, pending);
      RecordedOneMore(old(medium.history), h1, h2, headed, from, pending);
      if !ok {
        return Some(IOFailed);
      }
      ok := medium.SyncMap();
      SyncedGrows(medium.Now(), headed, from, pending);
      RecordedOneMore(old(medium.history), h2, medium.history, medium.Now(), from, pending);
      if !ok {
        return Some(IOFailed);
      }
      var released: bool := *;
      if !released {
        medium.faulty := true;
        return Some(IOFailed);
      }
      return None;
    }
  }

  lemma {:induction false} FlatOfPrefix(records: seq<bytes>, i: nat)
    requires i <= |records|
    ensures i == 0 ==> Flat(records[..i]) == []
    ensures i > 0 ==> Flat(records[..i]) == Flat(records[..i-1]) + records[i-1]
  {
    if i > 0 {
      assert records[..i][..i-1] == records[..i-1];
    }
  }

  lemma BodyOfAppended(d: Disk, from: Disk, data: bytes)
    requires d.map_ == from.map_.(unsynced := from.map_.unsynced + data)
    ensures d.map_.Body() == from.map_.Body() + data
  {
    Associative(from.map_.synced, from.map_.unsynced, data);
  }

  lemma BodyOfSynced(f: MapFile)
    ensures f.unsynced == [] ==> f.Body() == f.synced
  {
  }

  lemma NothingYet(h: seq<Disk>, d: Disk, data: bytes)
    ensures Grows(d, d, data) && Recorded(h, h, d, data)
  {
  }

  lemma RecordedNothing(h: seq<Disk>, d: Disk)
    ensures Recorded(h, h, d, [])
  {
  }

  lemma SyncedGrows(d: Disk, appended: Disk, from: Disk, data: bytes)
    requires Grows(appended, from, data) && d.image == appended.image
    requires d.map_ == appended.map_ || d.map_ == MapFile(appended.map_.header, appended.map_.Body(), [])
    ensures Grows(d, from, data)
    ensures d.map_.Body() == appended.map_.Body()
  {
    assert appended.map_.Body() + [] == appended.map_.Body();
    assert from.map_.synced <= appended.map_.synced <= appended.map_.Body();
  }

  lemma RecordedOneMore(h0: seq<Disk>, h1: seq<Disk>, h2: seq<Disk>, d: Disk, from: Disk, data: bytes)
    requires Recorded(h0, h1, from, data) && (h2 == h1 || h2 == h1 + [d]) && Grows(d, from, data)
    ensures Recorded(h0, h2, from, data)
  {
    hide Grows;
  }

  lemma HeaderGrows(d: Disk, before: Disk, from: Disk, data: bytes)
    requires Grows(before, from, data)
    requires d.image == before.image && d.map_.header.Described() == before.map_.header.Described()
    requires d.map_.synced == before.map_.synced && d.map_.unsynced == before.map_.unsynced
    ensures Grows(d, from, data)
  {
  }

  /** Create (store_create.go:11): a new map file with an empty checkpoint, beside an image. */
  method Create(header: Header, image: ImageFile) returns (r: Result<Store, StoreError>)
    ensures r.Ok? ==>
              && fresh(r.value) && fresh(r.value.medium) && r.value.Valid() && r.value.Coherent() && !r.value.closed
              && r.value.medium.image == image && r.value.medium.history == [r.value.medium.Now()] && !r.value.medium.failed
              && r.value.session == Begun(Checkpoint(0, [])) && r.value.start == EmptyMap()
              && r.value.header == header.(clean := false)
              && header.Valid()
  {
    hide CheckpointCodec.Marshal, Consistent, Journal;
    if !header.Valid() {
      return Err(BadHeader);
    }
    EmptyMapExists();
    var active := header.(clean := false);
    var checkpoint := CheckpointCodec.MarshalCheckpoint(Checkpoint(0, []));
    var granted: bool := *;
    if !granted {
      return Err(IOFailed);
    }
    var medium := new Medium(image, MapFile(Header(0, 0, [], false), [], []));
    var store := new Store.Began(medium, active, Checkpoint(0, []), checkpoint.value);
    var ok := medium.WriteHeader(active);
    if !ok {
      return Err(IOFailed);
    }
    var n;
    n, ok := medium.AppendMap(checkpoint.value);
    if !ok || n != |checkpoint.value| {
      return Err(IOFailed);
    }
    ok := medium.SyncMap();
    if !ok {
      return Err(IOFailed);
    }
    ok := medium.SeekEnd();
    if !ok {
      return Err(IOFailed);
    }
    medium.Begin();
    JournalNothing(1);
    assert store.start + [] == store.start;
    return Ok(store);
  }

  /** The body of a map nothing has been journaled to. */
  function EmptyMap(): bytes {
    CheckpointCodec.Marshal(Checkpoint(0, [])).value
  }

  lemma EmptyMapExists()
    ensures CheckpointCodec.Marshal(Checkpoint(0, [])) == Ok(EmptyMap())
  {
  }

  /** Open (store_open.go:11): the replayed state becomes the working state of a new session, which goes on after it. */
  method Open(medium: Medium, geometry: Geometry) returns (r: Result<Store, StoreError>)
    modifies medium`mapFile, medium`history, medium`failed, medium`faulty
    ensures r.Ok? ==>
              && fresh(r.value) && r.value.medium == medium && r.value.Valid() && r.value.Coherent() && !r.value.closed
              && medium.history == [medium.Now()] && !medium.failed
              && StateOf(old(medium.mapFile.header), old(medium.mapFile.Body()), geometry) == Ok(r.value.session.base)
              && r.value.session == Begun(r.value.session.base) && r.value.start == old(medium.mapFile.Body())
              && r.value.header == old(medium.mapFile.header).(clean := false)
  {
    hide StateOf;
    var state := ReadState(medium.mapFile, geometry);
    if state.Err? {
      return Err(state.error);
    }
    if state.value.last == 0xFFFF_FFFF_FFFF_FFFF {
      return Err(SequenceExhausted);
    }
    var granted: bool := *;
    if !granted {
      return Err(IOFailed);
    }
    var header := medium.mapFile.header.(clean := false);
    var store := new Store.Began(medium, header, state.value, medium.mapFile.Body());
    var ok := medium.SeekEnd();
    if !ok {
      return Err(IOFailed);
    }
    ok := medium.WriteHeader(header);
    if !ok {
      return Err(IOFailed);
    }
    ok := medium.SyncMap();
    if !ok {
      return Err(IOFailed);
    }
    medium.Begin();
    JournalNothing(store.session.First());
    assert store.start + [] == store.start;
    return Ok(store);
  }

}
