/** The catalog's journal and its compaction (internal/catalog/journal_codec.go, journal_apply.go, store.go,
    store_compact.go). */
module Catalog {
  import opened Prelude
  import opened Transitions
  import opened LittleEndian
  import opened Crc32c
  import opened ByteOrder

  const MAGIC: bytes := [68, 83, 67, 74]
  const MAX_PAYLOAD := 0x10_0000

  type RecordId = Hash

  /** An entry; what the model does not look into is in `rest`, and whether it is well formed in `wellFormed`. */
  datatype Entry = Entry(id: RecordId, lastSeen: int, captures: seq<string>, jobs: seq<string>, wellFormed: bool, rest: bytes) {
    predicate Valid() {
      id != NO_HASH && wellFormed
    }
  }

  datatype Store = Store(last: uint64, entries: seq<Entry>, locked: bool)

  datatype Snapshot = Snapshot(last: uint64, entries: seq<Entry>)

  datatype Record = Record(kind: uint16, sequence: uint64, payload: bytes) {
    predicate Valid() {
      sequence != 0 && |payload| <= MAX_PAYLOAD && 1 <= kind <= 9
    }
  }

  datatype Bounds = Bounds(maxEntries: int, maxCaptures: int, maxJobs: int) {
    predicate Valid() {
      maxEntries >= 0 && maxCaptures >= 0 && maxJobs >= 0
    }
  }

  const NO_BOUNDS := Bounds(0, 0, 0)

  datatype CatalogError = ShortHeader | BadMagic | BadVersion | TruncatedRecord | PayloadTooLong | BadChecksum | BadRecord
                        | BadSnapshot | OutOfSequence | BadEvent | BadStore | BadBounds

  /** How entry payloads are read; the nested entry codecs are not part of this model. */
  type EntryCodec = bytes -> Option<Entry>

  predicate AllValid(entries: seq<Entry>) {
    forall i :: 0 <= i < |entries| ==> entries[i].Valid()
  }

  // ----- records as bytes

  function Body(r: Record): (b: bytes)
    ensures |b| == 20 + |r.payload|
  {
    MAGIC + LE(1, 2) + LE(r.kind, 2) + LE(r.sequence, 8) + LE(|r.payload|, 4) + r.payload
  }

  function Frame(r: Record): (b: bytes)
    ensures |b| == 24 + |r.payload|
  {
    Body(r) + LE(Checksum(Body(r)), 4)
  }

  /** UnmarshalJournalRecord (journal_codec.go:25). */
  function Unmarshal(b: bytes): (r: Result<(Record, nat), CatalogError>)
    ensures r.Ok? ==> 24 <= r.value.1 <= |b|
  {
    if |b| < 24 then Err(ShortHeader)
    else if b[0..4] != MAGIC then Err(BadMagic)
    else if Read16(b[4..6]) != 1 then Err(BadVersion)
    else
      var length := Read32(b[16..20]);
      if |b| < 24 + length then Err(TruncatedRecord)
      else if length > MAX_PAYLOAD then Err(PayloadTooLong)
      else if Read32(b[20 + length..24 + length]) != Checksum(b[..20 + length]) then Err(BadChecksum)
      else
        var r := Record(Read16(b[6..8]), Read64(b[8..16]), b[20..20 + length]);
        if r.Valid() then Ok((r, 24 + length)) else Err(BadRecord)
  }

  lemma BodyFields(r: Record)
    requires |r.payload| <= MAX_PAYLOAD
    ensures var b := Body(r);
            && b[0..4] == MAGIC && Read16(b[4..6]) == 1 && Read16(b[6..8]) == r.kind && Read64(b[8..16]) == r.sequence
            && Read32(b[16..20]) == |r.payload| && b[20..] == r.payload
  {
    Numbers(1, |r.payload|, r.sequence);
    Numbers(r.kind, |r.payload|, r.sequence);
    var b := Body(r);
    assert b[4..6] == LE(1, 2) && b[6..8] == LE(r.kind, 2) && b[8..16] == LE(r.sequence, 8) && b[16..20] == LE(|r.payload|, 4);
  }

  /** A written record reads back, whatever follows it. */
  lemma RecordReadsBack(r: Record, tail: bytes)
    requires r.Valid()
    ensures Unmarshal(Frame(r) + tail) == Ok((r, |Frame(r)|))
  {
    hide Checksum, LE, Body;
    BodyFields(r);
    var b, f := Body(r), Frame(r) + tail;
    var n := |r.payload|;
    Numbers(0, Checksum(b), 0);
    assert f[..20 + n] == b;
    assert f[0..4] == b[0..4] && f[4..6] == b[4..6] && f[6..8] == b[6..8] && f[8..16] == b[8..16] && f[16..20] == b[16..20];
    assert f[20..20 + n] == b[20..];
    assert f[20 + n..24 + n] == LE(Checksum(b), 4);
  }

  /** A record with one byte damaged is not read, unless the damage is to its length and moves its end. */
  lemma DamagedRecordRejected(r: Record, i: nat, x: uint8, tail: bytes)
    requires r.Valid() && i < |Frame(r)| && !(16 <= i < 20) && Frame(r)[i] != x
    ensures Unmarshal(Frame(r)[i := x] + tail).Err?
  {
    hide Checksum, LE, FromLE, Read16, Read32, Read64, Body;
    BodyFields(r);
    var f := Frame(r);
    var g, n := f[i := x], |Body(r)|;
    Numbers(0, Checksum(Body(r)), 0);
    assert f[..n] == Body(r) && f[n..] == LE(Checksum(Body(r)), 4);
    SealNotices(f, i, x);
    assert (g + tail)[16..20] == f[16..20] == Body(r)[16..20];
    assert (g + tail)[n..n + 4] == g[n..] && (g + tail)[..n] == g[..n];
  }

  // ----- entries by id

  /** The entry an id leads to. */
  function Find(entries: seq<Entry>, id: RecordId): Option<Entry> {
    if entries == [] then None
    else if entries[0].id == id then Some(entries[0])
    else Find(entries[1..], id)
  }

  ghost predicate SameCatalog(a: seq<Entry>, b: seq<Entry>) {
    forall id: RecordId :: Find(a, id) == Find(b, id)
  }

  ghost predicate UniqueIds(entries: seq<Entry>) {
    forall i, j :: 0 <= i < j < |entries| ==> entries[i].id != entries[j].id
  }

  function Upserted(entries: seq<Entry>, e: Entry): seq<Entry> {
    if entries == [] then [e]
    else if entries[0].id == e.id then [e] + entries[1..]
    else [entries[0]] + Upserted(entries[1..], e)
  }

  /** UpsertEntry (store.go:35). */
  method UpsertEntry(s: Store, e: Entry) returns (r: Result<Store, CatalogError>)
    ensures r == if e.Valid() then Ok(s.(entries := Upserted(s.entries, e))) else Err(BadEvent)
  {
    if !e.Valid() {
      return Err(BadEvent);
    }
    for i := 0 to |s.entries|
      invariant forall k :: 0 <= k < i ==> s.entries[k].id != e.id
    {
      if s.entries[i].id == e.id {
        UpsertedAt(s.entries, e, i);
        return Ok(s.(entries := s.entries[i := e]));
      }
    }
    UpsertedEnd(s.entries, e);
    return Ok(s.(entries := s.entries + [e]));
  }

  lemma {:induction false} UpsertedAt(entries: seq<Entry>, e: Entry, i: nat)
    requires i < |entries| && entries[i].id == e.id && forall k :: 0 <= k < i ==> entries[k].id != e.id
    ensures Upserted(entries, e) == entries[i := e]
  {
    if i > 0 {
      UpsertedAt(entries[1..], e, i - 1);
    }
  }

  lemma {:induction false} UpsertedEnd(entries: seq<Entry>, e: Entry)
    requires forall k :: 0 <= k < |entries| ==> entries[k].id != e.id
    ensures Upserted(entries, e) == entries + [e]
  {
    if entries != [] {
      UpsertedEnd(entries[1..], e);
    }
  }

  /** Upserting overrides the catalog at one id and keeps ids unique. */
  lemma {:induction false} UpsertOverrides(entries: seq<Entry>, e: Entry, id: RecordId)
    ensures Find(Upserted(entries, e), id) == if id == e.id then Some(e) else Find(entries, id)
  {
    if entries != [] && entries[0].id != e.id {
      UpsertOverrides(entries[1..], e, id);
      assert Upserted(entries, e)[1..] == Upserted(entries[1..], e);
    } else if entries != [] {
      assert Upserted(entries, e)[1..] == entries[1..];
    }
  }

  lemma {:induction false} UpsertKeepsIds(entries: seq<Entry>, e: Entry)
    requires UniqueIds(entries)
    ensures UniqueIds(Upserted(entries, e))
    ensures forall x :: x in Upserted(entries, e) ==> x == e || x in entries
    ensures AllValid(entries) && e.Valid() ==> AllValid(Upserted(entries, e))
  {
    if entries != [] {
      var rest := entries[1..];
      UpsertKeepsIds(rest, e);
      var r := Upserted(rest, e);
      if entries[0].id != e.id {
        forall j | 0 <= j < |r| ensures r[j].id != entries[0].id {
          assert r[j] in r;
        }
      }
    }
  }

  lemma {:induction false} FindMember(entries: seq<Entry>, id: RecordId)
    ensures Find(entries, id).Some? ==> Find(entries, id).value in entries && Find(entries, id).value.id == id
    ensures Find(entries, id).None? ==> forall e :: e in entries ==> e.id != id
  {
    if entries != [] {
      FindMember(entries[1..], id);
      assert entries == [entries[0]] + entries[1..];
    }
  }

  /** With unique ids the order of the entries does not matter. */
  lemma PermutationFindsSame(a: seq<Entry>, b: seq<Entry>)
    requires UniqueIds(a) && UniqueIds(b) && multiset(a) == multiset(b)
    ensures SameCatalog(a, b)
  {
    forall id: RecordId ensures Find(a, id) == Find(b, id) {
      FindMember(a, id);
      FindMember(b, id);
      assert forall e :: (e in a <==> e in multiset(a)) && (e in b <==> e in multiset(b));
      if Find(a, id).Some? && Find(b, id).Some? {
        var i :| 0 <= i < |a| && a[i] == Find(a, id).value;
        assert Find(b, id).value in a;
        var j :| 0 <= j < |a| && a[j] == Find(b, id).value;
      }
    }
  }

  lemma PermutationKeepsIds(a: seq<Entry>, b: seq<Entry>)
    requires UniqueIds(a) && multiset(a) == multiset(b)
    ensures UniqueIds(b)
  {
    forall i, j | 0 <= i < j < |b| ensures b[i].id != b[j].id {
      if b[i].id == b[j].id {
        assert b[i] in multiset(b) && b[j] in multiset(b);
        assert b[i] in multiset(a) && b[j] in multiset(a);
        var k :| 0 <= k < |a| && a[k] == b[i];
        var l :| 0 <= l < |a| && a[l] == b[j];
        assert k == l;
        TwiceIn(b, i, j);
        OnceIn(a, k);
      }
    }
  }

  lemma TwiceIn(b: seq<Entry>, i: nat, j: nat)
    requires i < j < |b| && b[i] == b[j]
    ensures multiset(b)[b[i]] >= 2
  {
    assert b == b[..j] + [b[j]] + b[j+1..];
    assert b[..j][i] == b[i];
    assert b[i] in multiset(b[..j]);
  }

  lemma OnceIn(a: seq<Entry>, k: nat)
    requires UniqueIds(a) && k < |a|
    ensures multiset(a)[a[k]] == 1
  {
    assert a == a[..k] + [a[k]] + a[k+1..];
    assert a[k] !in a[..k] && a[k] !in a[k+1..];
    assert a[k] !in multiset(a[..k]) && a[k] !in multiset(a[k+1..]);
  }

  // ----- compaction

  /** The order of Compact: latest seen first, then by id. */
  predicate Newer(a: Entry, b: Entry) {
    if a.lastSeen != b.lastSeen then a.lastSeen > b.lastSeen else Less(a.id, b.id)
  }

  ghost predicate NewestFirst(entries: seq<Entry>) {
    forall i, j :: 0 <= i < j < |entries| ==> !Newer(entries[j], entries[i])
  }

  function InsertEntry(entries: seq<Entry>, e: Entry): (r: seq<Entry>)
    ensures multiset(r) == multiset(entries) + multiset{e}
  {
    if entries == [] then [e]
    else if Newer(entries[0], e) then
      assert entries == [entries[0]] + entries[1..];
      [entries[0]] + InsertEntry(entries[1..], e)
    else [e] + entries
  }

  lemma NewerFacts(a: Entry, b: Entry, c: Entry)
    ensures !(Newer(a, b) && Newer(b, a))
    ensures !Newer(b, a) && !Newer(c, b) ==> !Newer(c, a)
  {
    LessTotal(a.id, b.id);
    LessTotal(b.id, c.id);
    LessTotal(a.id, c.id);
    if Less(a.id, b.id) && Less(b.id, c.id) {
      LessTransitive(a.id, b.id, c.id);
    }
  }

  lemma {:induction false} InsertNewest(entries: seq<Entry>, e: Entry)
    requires NewestFirst(entries)
    ensures NewestFirst(InsertEntry(entries, e))
  {
    hide Newer;
    if entries != [] {
      NewerFacts(entries[0], e, e);
      if Newer(entries[0], e) {
        InsertNewest(entries[1..], e);
        var r := InsertEntry(entries[1..], e);
        forall j | 0 <= j < |r| ensures !Newer(r[j], entries[0]) {
          assert r[j] in multiset(r);
          assert r[j] in multiset(entries[1..]) + multiset{e};
        }
      } else {
        forall j | 0 <= j < |entries| ensures !Newer(entries[j], e) {
          NewerFacts(e, entries[0], entries[j]);
        }
      }
    }
  }

  /** Stands for the library's sort.Slice. */
  method SortEntries(entries: seq<Entry>) returns (r: seq<Entry>)
    ensures NewestFirst(r) && multiset(r) == multiset(entries)
  {
    r := [];
    for i := 0 to |entries|
      invariant NewestFirst(r) && multiset(r) == multiset(entries[..i])
    {
      assert entries[..i+1] == entries[..i] + [entries[i]];
      InsertNewest(r, entries[i]);
      r := InsertEntry(r, entries[i]);
    }
    assert entries[..|entries|] == entries;
  }

  function Latest<T>(s: seq<T>, max: int): seq<T> {
    if 0 < max < |s| then s[|s| - max..] else s
  }

  function Trimmed(e: Entry, bounds: Bounds): Entry {
    e.(captures := Latest(e.captures, bounds.maxCaptures), jobs := Latest(e.jobs, bounds.maxJobs))
  }

  /** Compact (store_compact.go:8): the newest entries, in order, each with its latest captures and jobs. */
  method Compact(s: Store, bounds: Bounds) returns (r: Result<Store, CatalogError>)
    ensures r.Ok? <==> AllValid(s.entries) && bounds.Valid()
    ensures r.Ok? ==> r.value.last == s.last && r.value.locked == s.locked
    ensures r.Ok? ==> exists sorted :: NewestFirst(sorted) && multiset(sorted) == multiset(s.entries) && CompactedFrom(r.value.entries, sorted, bounds)
    ensures r.Ok? && bounds == NO_BOUNDS ==> NewestFirst(r.value.entries) && multiset(r.value.entries) == multiset(s.entries)
  {
    if !AllValid(s.entries) {
      return Err(BadStore);
    }
    if !bounds.Valid() {
      return Err(BadBounds);
    }
    hide NewestFirst;
    var sorted := SortEntries(s.entries);
    var entries := sorted;
    if bounds.maxEntries > 0 && |entries| > bounds.maxEntries {
      entries := entries[..bounds.maxEntries];
    }
    entries := TrimEntries(entries, bounds);
    assert CompactedFrom(entries, sorted, bounds);
    if bounds == NO_BOUNDS {
      assert entries == sorted;
    }
    return Ok(s.(entries := entries));
  }

  method TrimEntries(kept: seq<Entry>, bounds: Bounds) returns (entries: seq<Entry>)
    ensures |entries| == |kept| && forall k :: 0 <= k < |entries| ==> entries[k] == Trimmed(kept[k], bounds)
  {
    entries := kept;
    for i := 0 to |entries|
      invariant |entries| == |kept|
      invariant forall k :: 0 <= k < i ==> entries[k] == Trimmed(kept[k], bounds)
      invariant forall k :: i <= k < |entries| ==> entries[k] == kept[k]
    {
      var e := entries[i];
      if bounds.maxCaptures > 0 && |e.captures| > bounds.maxCaptures {
        e := e.(captures := e.captures[|e.captures| - bounds.maxCaptures..]);
      }
      if bounds.maxJobs > 0 && |e.jobs| > bounds.maxJobs {
        e := e.(jobs := e.jobs[|e.jobs| - bounds.maxJobs..]);
      }
      entries := entries[i := e];
    }
  }

  ghost predicate CompactedFrom(entries: seq<Entry>, sorted: seq<Entry>, bounds: Bounds) {
    && |entries| == (if 0 < bounds.maxEntries < |sorted| then bounds.maxEntries else |sorted|)
    && forall k :: 0 <= k < |entries| ==> entries[k] == Trimmed(sorted[k], bounds)
  }

  /** What is kept of a list of references are its latest, as many as the bound allows. */
  lemma LatestKept<T>(s: seq<T>, max: int)
    ensures |Latest(s, max)| == if 0 < max then Min(|s|, max) else |s|
    ensures forall k :: 0 <= k < |Latest(s, max)| ==> Latest(s, max)[k] == s[|s| - |Latest(s, max)| + k]
  {
  }

  /** Nothing that was dropped was seen later than anything that was kept; what is kept comes latest first. */
  lemma CompactionKeepsNewest(entries: seq<Entry>, sorted: seq<Entry>, bounds: Bounds)
    requires NewestFirst(sorted) && CompactedFrom(entries, sorted, bounds) && bounds.Valid()
    ensures |entries| == if 0 < bounds.maxEntries then Min(bounds.maxEntries, |sorted|) else |sorted|
    ensures forall k :: 0 <= k < |entries| ==>
              entries[k] == sorted[k].(captures := Latest(sorted[k].captures, bounds.maxCaptures), jobs := Latest(sorted[k].jobs, bounds.maxJobs))
    ensures forall k, j :: 0 <= k < |entries| && k < j < |sorted| ==>
              sorted[j].lastSeen <= entries[k].lastSeen && (sorted[j].lastSeen == entries[k].lastSeen ==> !Less(sorted[j].id, entries[k].id))
  {
    hide Latest, Less;
    forall k, j | 0 <= k < |entries| && k < j < |sorted|
      ensures sorted[j].lastSeen <= entries[k].lastSeen && (sorted[j].lastSeen == entries[k].lastSeen ==> !Less(sorted[j].id, entries[k].id))
    {
      assert !Newer(sorted[j], sorted[k]);
      assert entries[k] == Trimmed(sorted[k], bounds);
    }
  }

  /** BuildSnapshotRecord (journal_apply.go:58). */
  method BuildSnapshotRecord(s: Store, bounds: Bounds) returns (r: Result<Snapshot, CatalogError>)
    ensures r.Ok? <==> AllValid(s.entries) && bounds.Valid()
    ensures r.Ok? && bounds == NO_BOUNDS ==> SnapshotOf(s, r.value)
  {
    var compacted := Compact(s, bounds);
    if compacted.Err? {
      return Err(compacted.error);
    }
    return Ok(Snapshot(compacted.value.last, compacted.value.entries));
  }

  /** A snapshot without bounds: the same entries in some order, and the same last sequence number. */
  ghost predicate SnapshotOf(s: Store, snapshot: Snapshot) {
    snapshot.last == s.last && multiset(snapshot.entries) == multiset(s.entries)
  }

  // ----- replay

  type Outcome = Result<Store, CatalogError>

  /** ApplyEvent after decoding (journal_apply.go:46). */
  function Applied(s: Store, r: Record, codec: EntryCodec): Outcome {
    var e := codec(r.payload);
    if e.None? || !e.value.Valid() then Err(BadEvent)
    else Ok(s.(entries := Upserted(s.entries, e.value), last := r.sequence))
  }

  /** The loop of ReplayJournal: records numbered below the expected one are passed over. */
  function Absorb(s: Store, expected: uint64, journal: bytes, codec: EntryCodec): Outcome
    decreases |journal|
  {
    if journal == [] then Ok(s)
    else
      match Unmarshal(journal)
      case Err(e) => if e == TruncatedRecord then Ok(s) else Err(e)
      case Ok((r, n)) =>
        if r.sequence < expected then Absorb(s, expected, journal[n..], codec)
        else if r.sequence != expected then Err(OutOfSequence)
        else
          match Applied(s, r, codec)
          case Err(e) => Err(e)
          case Ok(next) => Absorb(next, Wrap64(expected + 1), journal[n..], codec)
  }

  function Replay(snapshot: Snapshot, journal: bytes, codec: EntryCodec): Outcome {
    if !AllValid(snapshot.entries) then Err(BadSnapshot)
    else
      match Absorb(Store(snapshot.last, snapshot.entries, false), Wrap64(snapshot.last + 1), journal, codec)
      case Err(e) => Err(e)
      case Ok(s) => if AllValid(s.entries) then Ok(s) else Err(BadStore)
  }

  /** ReplayJournal (journal_apply.go:10). */
  method ReplayJournal(snapshot: Snapshot, journal: bytes, codec: EntryCodec) returns (o: Outcome)
    ensures o == Replay(snapshot, journal, codec)
  {
    hide Unmarshal, Applied;
    if !AllValid(snapshot.entries) {
      return Err(BadSnapshot);
    }
    var store, offset := Store(snapshot.last, snapshot.entries, false), 0;
    var expected: uint64 := Wrap64(snapshot.last + 1);
    ghost var all := Absorb(store, expected, journal, codec);
    assert journal[0..] == journal;
    while offset < |journal|
      invariant 0 <= offset <= |journal|
      invariant all == Absorb(store, expected, journal[offset..], codec)
    {
      var decoded := Unmarshal(journal[offset..]);
      if decoded.Err? {
        if decoded.error == TruncatedRecord {
          break;
        }
        return Err(decoded.error);
      }
      var (r, n) := decoded.value;
      assert journal[offset..][n..] == journal[offset + n..];
      if r.sequence < expected {
        offset := offset + n;
        continue;
      }
      if r.sequence != expected {
        return Err(OutOfSequence);
      }
      expected := Wrap64(expected + 1);
      var next := Applied(store, r, codec);
      if next.Err? {
        return next;
      }
      store := next.value;
      offset := offset + n;
    }
    assert all == Ok(store);
    if !AllValid(store.entries) {
      return Err(BadStore);
    }
    return Ok(store);
  }

  /** What TruncateJournalAfterSnapshot keeps (journal_apply.go:66). */
  function Truncated(journal: bytes, last: uint64): bytes
    decreases |journal|
  {
    if journal == [] then []
    else
      match Unmarshal(journal)
      case Err(e) => if e == TruncatedRecord then [] else journal
      case Ok((r, n)) => if r.sequence > last then journal else Truncated(journal[n..], last)
  }

  method TruncateJournalAfterSnapshot(journal: bytes, snapshot: Snapshot) returns (rest: bytes)
    ensures rest == Truncated(journal, snapshot.last)
  {
    hide Unmarshal;
    var offset := 0;
    assert journal[0..] == journal;
    while offset < |journal|
      invariant 0 <= offset <= |journal|
      invariant Truncated(journal, snapshot.last) == Truncated(journal[offset..], snapshot.last)
    {
      var decoded := Unmarshal(journal[offset..]);
      if decoded.Err? {
        if decoded.error == TruncatedRecord {
          return [];
        }
        return journal[offset..];
      }
      var (r, n) := decoded.value;
      assert journal[offset..][n..] == journal[offset + n..];
      if r.sequence > snapshot.last {
        return journal[offset..];
      }
      offset := offset + n;
    }
    return [];
  }

  // ----- journals of consecutive records

  function Encoded(rs: seq<Record>): bytes {
    if rs == [] then [] else Frame(rs[0]) + Encoded(rs[1..])
  }

  ghost predicate Consecutive(rs: seq<Record>, first: nat) {
    first + |rs| <= TWO_64 && forall i :: 0 <= i < |rs| ==> rs[i].Valid() && rs[i].sequence == first + i
  }

  /** The records applied one after another. */
  function AbsorbAll(s: Store, rs: seq<Record>, codec: EntryCodec): Outcome
    decreases |rs|
  {
    if rs == [] then Ok(s)
    else
      match Applied(s, rs[0], codec)
      case Err(e) => Err(e)
      case Ok(next) => AbsorbAll(next, rs[1..], codec)
  }

  lemma EncodedFirst(rs: seq<Record>)
    requires rs != [] && rs[0].Valid()
    ensures Encoded(rs) != [] && Unmarshal(Encoded(rs)) == Ok((rs[0], |Frame(rs[0])|)) && Encoded(rs)[|Frame(rs[0])|..] == Encoded(rs[1..])
  {
    hide Unmarshal, Frame;
    RecordReadsBack(rs[0], Encoded(rs[1..]));
  }

  lemma ConsecutiveTail(rs: seq<Record>, first: nat, second: nat)
    requires Consecutive(rs, first) && rs != [] && second == first + 1
    ensures rs[0].Valid() && rs[0].sequence == first && Consecutive(rs[1..], second)
  {
  }

  /** A journal of consecutive records from the expected one on is absorbed record by record. */
  lemma {:induction false} AbsorbEncoded(s: Store, first: nat, expected: uint64, rs: seq<Record>, codec: EntryCodec)
    requires 0 < first && Consecutive(rs, first) && (rs != [] ==> expected == first)
    ensures Absorb(s, expected, Encoded(rs), codec) == AbsorbAll(s, rs, codec)
    decreases |rs|
  {
    hide Unmarshal, Frame, Applied, Consecutive, Wrap64;
    if rs != [] {
      EncodedFirst(rs) by {
        ConsecutiveTail(rs, first, first + 1);
      }
      var second := first + 1;
      ConsecutiveTail(rs, first, second);
      if Applied(s, rs[0], codec).Ok? {
        NextExpected(rs, first, second);
        AbsorbEncoded(Applied(s, rs[0], codec).value, second, Wrap64(expected + 1), rs[1..], codec);
      }
    }
  }

  /** A gap in the numbers is refused: behind records from the expected number on none may skip one. */
  lemma {:induction false} GapRefused(s: Store, first: nat, rs: seq<Record>, r: Record, tail: bytes, codec: EntryCodec)
    requires 0 < first && Consecutive(rs, first) && AbsorbAll(s, rs, codec).Ok? && r.Valid() && first + |rs| < r.sequence
    ensures Absorb(s, first, Encoded(rs) + (Frame(r) + tail), codec) == Err(OutOfSequence)
    decreases |rs|
  {
    hide Unmarshal, Frame, Applied, Consecutive, Wrap64;
    if rs == [] {
      assert Encoded(rs) + (Frame(r) + tail) == Frame(r) + tail;
      RecordReadsBack(r, tail);
    } else {
      var second := first + 1;
      ConsecutiveTail(rs, first, second);
      var front, rest := Frame(rs[0]), Encoded(rs[1..]) + (Frame(r) + tail);
      Associative(front, Encoded(rs[1..]), Frame(r) + tail);
      RecordReadsBack(rs[0], rest);
      assert (front + rest)[|front|..] == rest;
      Fits(second);
      GapRefused(Applied(s, rs[0], codec).value, second, rs[1..], r, tail, codec);
    }
  }

  lemma NextExpected(rs: seq<Record>, first: nat, second: nat)
    requires Consecutive(rs, first) && second == first + 1
    ensures |rs| > 1 ==> Wrap64(second) == second
  {
    if |rs| > 1 {
      Fits(second);
    }
  }

  /** Records below the expected number are passed over. */
  lemma {:induction false} AbsorbSkips(s: Store, expected: uint64, first: nat, a: seq<Record>, b: seq<Record>, codec: EntryCodec)
    requires Consecutive(a, first) && first + |a| <= expected
    ensures Absorb(s, expected, Encoded(a + b), codec) == Absorb(s, expected, Encoded(b), codec)
    decreases |a|
  {
    hide Unmarshal, Frame, Applied;
    if a == [] {
      assert a + b == b;
    } else {
      EncodedFirst(a + b);
      assert (a + b)[1..] == a[1..] + b;
      AbsorbSkips(s, expected, first + 1, a[1..], b, codec);
    }
  }

  lemma {:induction false} TruncatedKeeps(last: uint64, first: nat, a: seq<Record>, b: seq<Record>)
    requires Consecutive(a, first) && first + |a| == last + 1 && Consecutive(b, last + 1)
    ensures Truncated(Encoded(a + b), last) == Encoded(b)
    decreases |a|
  {
    hide Unmarshal, Frame;
    if a == [] {
      assert a + b == b;
      if b != [] {
        EncodedFirst(b);
      }
    } else {
      EncodedFirst(a + b);
      assert (a + b)[1..] == a[1..] + b;
      TruncatedKeeps(last, first + 1, a[1..], b);
    }
  }

  lemma {:induction false} AbsorbAllConcat(s: Store, a: seq<Record>, b: seq<Record>, codec: EntryCodec)
    ensures AbsorbAll(s, a + b, codec) ==
            match AbsorbAll(s, a, codec) case Err(e) => Err(e) case Ok(t) => AbsorbAll(t, b, codec)
    decreases |a|
  {
    hide Applied;
    if a == [] {
      assert a + b == b;
    } else {
      assert (a + b)[1..] == a[1..] + b;
      if Applied(s, a[0], codec).Ok? {
        AbsorbAllConcat(Applied(s, a[0], codec).value, a[1..], b, codec);
      }
    }
  }

  lemma {:induction false} AbsorbAllKeeps(s: Store, rs: seq<Record>, codec: EntryCodec)
    requires AllValid(s.entries) && UniqueIds(s.entries) && AbsorbAll(s, rs, codec).Ok?
    ensures AllValid(AbsorbAll(s, rs, codec).value.entries) && UniqueIds(AbsorbAll(s, rs, codec).value.entries)
    ensures AbsorbAll(s, rs, codec).value.last == if rs == [] then s.last else rs[|rs|-1].sequence
    decreases |rs|
  {
    hide Upserted, AllValid, UniqueIds;
    if rs != [] {
      UpsertKeepsIds(s.entries, codec(rs[0].payload).value);
      AbsorbAllKeeps(Applied(s, rs[0], codec).value, rs[1..], codec);
    }
  }

  ghost predicate SameResult(a: Outcome, b: Outcome) {
    (a.Ok? <==> b.Ok?) && (a.Ok? ==> a.value.last == b.value.last && SameCatalog(a.value.entries, b.value.entries))
  }

  /** From catalogs that agree on every id, the same records lead to catalogs that agree. */
  lemma {:induction false} AbsorbAllAgrees(s: Store, t: Store, rs: seq<Record>, codec: EntryCodec)
    requires s.last == t.last && SameCatalog(s.entries, t.entries)
    ensures SameResult(AbsorbAll(s, rs, codec), AbsorbAll(t, rs, codec))
    decreases |rs|
  {
    hide Upserted, Find;
    if rs != [] && Applied(s, rs[0], codec).Ok? {
      var e := codec(rs[0].payload).value;
      forall id: RecordId ensures Find(Upserted(s.entries, e), id) == Find(Upserted(t.entries, e), id) {
        UpsertOverrides(s.entries, e, id);
        UpsertOverrides(t.entries, e, id);
      }
      AbsorbAllAgrees(Applied(s, rs[0], codec).value, Applied(t, rs[0], codec).value, rs[1..], codec);
    }
  }

  /** Replaying consecutive records from the one after the snapshot on. */
  lemma ReplayEncoded(snapshot: Snapshot, first: nat, rs: seq<Record>, codec: EntryCodec)
    requires AllValid(snapshot.entries) && UniqueIds(snapshot.entries) && first == snapshot.last + 1 && Consecutive(rs, first)
    ensures Replay(snapshot, Encoded(rs), codec) == AbsorbAll(Store(snapshot.last, snapshot.entries, false), rs, codec)
  {
    hide Absorb, AbsorbAll, AllValid, UniqueIds, Wrap64, Encoded, Consecutive;
    var s := Store(snapshot.last, snapshot.entries, false);
    FirstExpected(rs, first);
    AbsorbEncoded(s, first, Wrap64(first), rs, codec);
    if AbsorbAll(s, rs, codec).Ok? {
      AbsorbAllKeeps(s, rs, codec);
    }
  }

  lemma FirstExpected(rs: seq<Record>, first: nat)
    requires Consecutive(rs, first)
    ensures rs != [] ==> Wrap64(first) == first
  {
    if rs != [] {
      Fits(first);
    }
  }

  /** Compaction preserves meaning. Take a valid snapshot with unique ids, a journal of consecutive records after it, and
      the snapshot of the state reached after some of them. From the later snapshot, the truncated journal and the
      whole journal both lead to the catalog the original snapshot and the whole journal lead to. */
  lemma CompactionPreservesMeaning(original: Snapshot, a: seq<Record>, b: seq<Record>, later: Snapshot, codec: EntryCodec)
    requires AllValid(original.entries) && UniqueIds(original.entries) && Consecutive(a + b, original.last + 1)
    requires original.last + 1 + |a| < TWO_64
    requires Replay(original, Encoded(a), codec).Ok? && SnapshotOf(Replay(original, Encoded(a), codec).value, later)
    ensures var whole := Encoded(a + b);
            && Truncated(whole, later.last) == Encoded(b)
            && Replay(later, whole, codec) == Replay(later, Truncated(whole, later.last), codec)
            && SameResult(Replay(original, whole, codec), Replay(later, Truncated(whole, later.last), codec))
  {
    hide Replay, Absorb, AbsorbAll, AllValid, UniqueIds, SameResult, SameCatalog, Encoded;
    var first := original.last + 1;
    var second := first + |a|;
    ConsecutiveParts(a, b, first, second);
    ReplayEncoded(original, first, a, codec);
    ReplayEncoded(original, first, a + b, codec);
    var s := Store(original.last, original.entries, false);
    var t := AbsorbAll(s, a, codec).value;
    AbsorbAllConcat(s, a, b, codec);
    AbsorbAllKeeps(s, a, codec);
    assert second == t.last + 1;
    PermutationKeepsIds(t.entries, later.entries);
    PermutationFindsSame(t.entries, later.entries);
    PermutationValid(t.entries, later.entries);
    ReplayEncoded(later, second, b, codec);
    AbsorbAllAgrees(t, Store(later.last, later.entries, false), b, codec);
    TruncatedKeeps(later.last, first, a, b);
    ReplaySkips(later, first, second, a, b, codec);
  }

  lemma ReplaySkips(later: Snapshot, first: nat, second: nat, a: seq<Record>, b: seq<Record>, codec: EntryCodec)
    requires Consecutive(a, first) && second == first + |a| == later.last + 1 && second < TWO_64
    ensures Replay(later, Encoded(a + b), codec) == Replay(later, Encoded(b), codec)
  {
    hide Absorb, Wrap64, AllValid, Encoded, Consecutive;
    Fits(second);
    var expected: uint64 := second;
    AbsorbSkips(Store(later.last, later.entries, false), expected, first, a, b, codec);
  }

  lemma ConsecutiveParts(a: seq<Record>, b: seq<Record>, first: nat, second: nat)
    requires Consecutive(a + b, first) && second == first + |a|
    ensures Consecutive(a, first) && Consecutive(b, second)
  {
    forall i | 0 <= i < |a| ensures a[i].Valid() && a[i].sequence == first + i {
      assert (a + b)[i] == a[i];
    }
    forall i | 0 <= i < |b| ensures b[i].Valid() && b[i].sequence == second + i {
      assert (a + b)[|a| + i] == b[i];
    }
  }

  lemma PermutationValid(a: seq<Entry>, b: seq<Entry>)
    requires multiset(a) == multiset(b) && AllValid(a)
    ensures AllValid(b)
  {
    forall i | 0 <= i < |b| ensures b[i].Valid() {
      assert b[i] in multiset(b);
      assert b[i] in multiset(a);
    }
  }

  /** Replay, snapshot, truncate, replay again: the maintenance a caller performs. */
  method CompactJournal(original: Snapshot, journal: bytes, ghost a: seq<Record>, ghost b: seq<Record>, codec: EntryCodec)
    returns (snapshot: Option<Snapshot>, rest: bytes)
    requires AllValid(original.entries) && UniqueIds(original.entries) && Consecutive(a + b, original.last + 1)
    requires original.last + 1 + |a| < TWO_64 && journal == Encoded(a)
    ensures snapshot.Some? <==> Replay(original, journal, codec).Ok?
    ensures snapshot.Some? ==> SameResult(Replay(original, Encoded(a + b), codec), Replay(snapshot.value, Encoded(b), codec))
    ensures snapshot.Some? ==> rest == []
  {
    hide Replay, AllValid, UniqueIds, Encoded, SameResult, Truncated;
    var state := ReplayJournal(original, journal, codec);
    if state.Err? {
      return None, journal;
    }
    ReplayValid(original, journal, codec);
    var built := BuildSnapshotRecord(state.value, NO_BOUNDS);
    rest := TruncateJournalAfterSnapshot(journal, built.value);
    CompactionPreservesMeaning(original, a, b, built.value, codec);
    assert a + [] == a;
    ConsecutiveParts(a, b, original.last + 1, original.last + 1 + |a|);
    CompactionPreservesMeaning(original, a, [], built.value, codec);
    NothingEncoded();
    return Some(built.value), rest;
  }

  lemma NothingEncoded()
    ensures Encoded([]) == []
  {
  }

  lemma ReplayValid(snapshot: Snapshot, journal: bytes, codec: EntryCodec)
    requires Replay(snapshot, journal, codec).Ok?
    ensures AllValid(Replay(snapshot, journal, codec).value.entries)
  {
    hide Absorb;
  }
}
