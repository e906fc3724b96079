/** What a map file reads as after any number of sessions, and after a crash inside one. */
module Sessions {
  import opened Prelude
  import opened Transitions
  import opened Extents
  import opened Applying
  import opened LittleEndian
  import Crc32c
  import opened ExtentCodec
  import opened JournalCodec
  import opened Replaying
  import CheckpointCodec
  import opened TornTails
  import opened Media
  import opened RecoveryMap

  /** A map file whose checkpoint and journal stay within its geometry. */
  ghost predicate MapWithin(header: Header, body: bytes, g: Geometry) {
    && 0 < g.sectorSize && 0 < g.sectorCount < TWO_32
    && header.sectorSize == g.sectorSize && header.sectorCount == g.sectorCount
    && CheckpointLength(body).Ok?
    && var n := CheckpointLength(body).value;
    && CheckpointCodec.Unmarshal(body[..n], CheckpointCodec.DEFAULT_LIMITS).Ok?
    && Sound(CheckpointCodec.Unmarshal(body[..n], CheckpointCodec.DEFAULT_LIMITS).value.extents, g.sectorCount)
    && JournalWithin(body[n..], g.sectorCount)
  }

  /** One whose journal ends on a record boundary besides. */
  ghost predicate SoundMap(header: Header, body: bytes, g: Geometry) {
    MapWithin(header, body, g) && WholeRecords(JournalOf(body))
  }

  function CheckpointOf(body: bytes): Checkpoint
    requires CheckpointLength(body).Ok?
    requires CheckpointCodec.Unmarshal(body[..CheckpointLength(body).value], CheckpointCodec.DEFAULT_LIMITS).Ok?
  {
    CheckpointCodec.Unmarshal(body[..CheckpointLength(body).value], CheckpointCodec.DEFAULT_LIMITS).value
  }

  function JournalOf(body: bytes): bytes
    requires CheckpointLength(body).Ok?
  {
    body[CheckpointLength(body).value..]
  }

  /** What is appended to a map leaves its checkpoint alone and lengthens its journal. */
  lemma AppendedMap(body: bytes, more: bytes)
    requires CheckpointLength(body).Ok?
    ensures CheckpointLength(body + more) == CheckpointLength(body)
    ensures var n := CheckpointLength(body).value;
            (body + more)[..n] == body[..n] && (body + more)[n..] == body[n..] + more
  {
    assert (body + more)[6..10] == body[6..10];
  }

  // ----- no oversized tail can come from the store's own records

  lemma {:induction false} OversizedAfterWhole(j1: bytes, j2: bytes)
    requires WholeRecords(j1)
    ensures OversizedTail(j1 + j2) <==> OversizedTail(j2)
    decreases |j1|
  {
    hide Unmarshal;
    if j1 == [] {
      assert j1 + j2 == j2;
    } else {
      UnmarshalLocal(j1, j2);
      var n := Unmarshal(j1).value.1;
      assert (j1 + j2)[n..] == j1[n..] + j2;
      OversizedAfterWhole(j1[n..], j2);
    }
  }

  lemma RecordPrefixNotOversized(sequence: nat, e: Extent, k: nat)
    requires 0 < sequence < TWO_64 && e.Valid() && k < RECORD_BYTES
    ensures !OversizedTail(RecordBytes(sequence, e)[..k])
  {
    var b := RecordBytes(sequence, e);
    MarshalledIsFrame(ExtentRecord(sequence, e));
    FrameFields(TypeCode(ExtentStateChanged), sequence, ExtentBytes(e));
    ProperPrefixIsTruncated(TypeCode(ExtentStateChanged), sequence, ExtentBytes(e), k);
    if k >= 14 {
      assert b[..k][10..14] == b[10..14];
    }
  }

  lemma NothingOversized(first: nat)
    ensures Journalable(first, []) ==> Journal(first, []) == [] && !OversizedTail([])
  {
  }

  lemma {:induction false} CutNotOversized(first: nat, es: seq<Extent>, k: nat)
    requires Journalable(first, es) && k <= |Journal(first, es)|
    ensures !OversizedTail(Journal(first, es)[..k])
    decreases |es|
  {
    hide Unmarshal, RecordBytes, Journal, Read32, Journalable;
    if es == [] {
      NothingOversized(first);
    } else {
      JournalTail(first, es);
      var r, rest := RecordBytes(first, es[0]), Journal(first + 1, es[1..]);
      if k < RECORD_BYTES {
        assert (r + rest)[..k] == r[..k];
        RecordPrefixNotOversized(first, es[0], k);
      } else {
        var tail := rest[..k - RECORD_BYTES];
        assert (r + rest)[..k] == r + tail;
        RecordReads(first, es[0], tail);
        assert (r + tail)[RECORD_BYTES..] == tail;
        CutNotOversized(first + 1, es[1..], k - RECORD_BYTES);
      }
    }
  }

  // ----- reading back a session

  lemma {:induction false} ApplyAllPrefix(s: seq<Extent>, es: seq<Extent>, m: nat)
    requires ApplyAll(s, es).Ok? && m <= |es|
    ensures ApplyAll(s, es[..m]).Ok?
  {
    hide ApplyAll;
    var p, rest := es[..m], es[m..];
    assert es == p + rest;
    ApplyAllConcat(s, p, rest);
  }

  /** The state a sound map opens with is the settled outcome of its journal. */
  lemma OpensSettled(header: Header, body: bytes, g: Geometry)
    requires SoundMap(header, body, g) && StateOf(header, body, g).Ok?
    ensures CheckpointLength(body).Ok?
    ensures CheckpointCodec.Unmarshal(body[..CheckpointLength(body).value], CheckpointCodec.DEFAULT_LIMITS).Ok?
    ensures var cp, j := CheckpointOf(body), JournalOf(body);
            && Absorb(cp, j).Ok?
            && StateOf(header, body, g) == Ok(Finish(Absorb(cp, j)).value)
            && Sound(Absorb(cp, j).value.extents, g.sectorCount)
            && Sound(StateOf(header, body, g).value.extents, g.sectorCount)
  {
    var cp, j := CheckpointOf(body), JournalOf(body);
    StreamRefinesBuffer(cp, j);
    AbsorbSound(cp, j, g.sectorCount);
    SettledValid(Absorb(cp, j).value.extents, g.sectorCount);
  }

  /** Absorbing a cut session journal over the unsettled state and over the settled one a session began with. */
  lemma AbsorbCutSession(a: Checkpoint, base: Checkpoint, es: seq<Extent>, k: nat, capacity: nat) returns (m: nat)
    requires Sound(a.extents, capacity) && base == a.(extents := Settled(a.extents))
    requires Journalable(base.last + 1, es) && ApplyAll(base.extents, es).Ok? && Within(es, capacity)
    requires k <= |Journal(base.last + 1, es)|
    ensures m <= |es| && 57 * m <= k && (m < |es| ==> k < 57 * (m + 1))
    ensures ApplyAll(base.extents, es[..m]).Ok? && base.last + m < TWO_64
    ensures var o := Absorb(a, Journal(base.last + 1, es)[..k]);
            && o.Ok? && o.value.last == base.last + m && Sound(o.value.extents, capacity)
            && Similar(o.value.extents, ApplyAll(base.extents, es[..m]).value)
  {
    hide Absorb, Journal, ApplyAll, Unmarshal;
    m := CutJournal(base.last + 1, es, k);
    var j := Journal(base.last + 1, es[..m]);
    ApplyAllPrefix(base.extents, es, m);
    SettledValid(a.extents, capacity);
    SettledIsSimilar(a.extents);
    JournalBounds(base.last + 1, es[..m], capacity);
    AbsorbJournal(base, es[..m]);
    AbsorbSimilar(a, base, j, capacity);
    assert Absorb(a, Journal(base.last + 1, es)[..k]) == Absorb(a, j);
  }

  /** The states a session's file can be read back as: the base with the first m transitions applied, settled. */
  ghost predicate ReadsAs(o: Result<Checkpoint, StoreError>, base: Checkpoint, es: seq<Extent>, m: nat) {
    && m <= |es| && ApplyAll(base.extents, es[..m]).Ok?
    && o.Ok? && o.value.last == base.last + m
    && SameView(o.value.extents, Settled(ApplyAll(base.extents, es[..m]).value))
  }

  /** Whatever prefix of the session's records reached a sound map, the map reads back as the base with exactly the
      whole records of that prefix applied. */
  lemma CutSessionReadsBack(header: Header, start: bytes, g: Geometry, s: Session, k: nat) returns (m: nat)
    requires SoundMap(header, start, g) && StateOf(header, start, g) == Ok(s.base)
    requires Consistent(s) && Within(s.All(), g.sectorCount) && k <= |Journal(s.First(), s.All())|
    ensures 57 * m <= k && (m < |s.All()| ==> k < 57 * (m + 1))
    ensures ReadsAs(StateOf(header, start + Journal(s.First(), s.All())[..k], g), s.base, s.All(), m)
  {
    hide Absorb, Journal, ApplyAll, Sound, Settled, StateOf, SoundMap, MapWithin, CheckpointOf, JournalOf, CheckpointLength,
         CheckpointCodec.Unmarshal, OversizedTail;
    var es, more := s.All(), Journal(s.First(), s.All())[..k];
    OpensSettled(header, start, g);
    var a := Absorb(CheckpointOf(start), JournalOf(start)).value;
    m := AbsorbCutSession(a, s.base, es, k, g.sectorCount);
    CutNotOversized(s.First(), es, k);
    ReadsAppended(header, start, g, a, more);
    SimilarSettlesAlike(Absorb(a, more).value.extents, ApplyAll(s.base.extents, es[..m]).value);
  }

  /** A sound map with more journal behind it opens as what that journal makes of the unsettled state. */
  lemma ReadsAppended(header: Header, start: bytes, g: Geometry, a: Checkpoint, more: bytes)
    requires SoundMap(header, start, g) && StateOf(header, start, g).Ok? && !OversizedTail(more)
    requires Absorb(CheckpointOf(start), JournalOf(start)) == Ok(a)
    requires Absorb(a, more).Ok? && Sound(Absorb(a, more).value.extents, g.sectorCount)
    ensures StateOf(header, start + more, g) == Ok(Finish(Absorb(a, more)).value)
  {
    hide Absorb, AbsorbStream, CheckpointLength, CheckpointCodec.Unmarshal, Sound, Settled, OversizedTail, WholeRecords, JournalWithin;
    var cp, j := CheckpointOf(start), JournalOf(start);
    AppendedMap(start, more);
    AbsorbConcat(cp, j, more);
    OversizedAfterWhole(j, more);
    StreamRefinesBuffer(cp, j + more);
    SoundSettled(Absorb(a, more).value.extents, g.sectorCount);
  }

  lemma SoundSettled(s: seq<Extent>, capacity: nat)
    requires Sound(s, capacity)
    ensures ValidSet(Settled(s)) && Within(Settled(s), capacity)
  {
    SettledValid(s, capacity);
  }

  /** The journal of the first m transitions is the first 57 m bytes of the session's journal. */
  lemma WrittenIsPrefix(s: Session)
    requires Consistent(s)
    ensures Journalable(s.First(), s.written) && Journalable(s.First(), s.All())
    ensures var k := |Journal(s.First(), s.written)|;
            k <= |Journal(s.First(), s.All())| && Journal(s.First(), s.written) == Journal(s.First(), s.All())[..k]
  {
    hide Journal;
    JournalConcat(s.First(), s.written, s.firstPending, s.staged);
  }

  /** A session over this map, whose transitions stay within the geometry. */
  ghost predicate SessionOver(header: Header, start: bytes, g: Geometry, s: Session) {
    StateOf(header, start, g) == Ok(s.base) && Consistent(s) && Within(s.All(), g.sectorCount)
  }

  /** The file holding the session's written journal gives the durable sector view, queued reads being forgotten. */
  ghost predicate ReadsBack(header: Header, start: bytes, g: Geometry, s: Session)
    requires Journalable(s.First(), s.written)
  {
    var o := StateOf(header, start + Journal(s.First(), s.written), g);
    o.Ok? && o.value.last == s.base.last + |s.written| && SameView(o.value.extents, Settled(s.durable))
  }

  /** Reading the file of a coherent store gives the durable sector view. */
  lemma DurableReadsBack(header: Header, start: bytes, g: Geometry, s: Session)
    requires SoundMap(header, start, g) && SessionOver(header, start, g, s)
    ensures Journalable(s.First(), s.written) && ReadsBack(header, start, g, s)
  {
    hide Journal, StateOf, ApplyAll;
    WrittenIsPrefix(s);
    var k := |Journal(s.First(), s.written)|;
    var m := CutSessionReadsBack(header, start, g, s, k);
    assert s.All()[..m] == s.written;
  }

  /** The working view is the durable one with the pending transitions applied. */
  lemma PendingAppliedToDurable(s: Session)
    requires Consistent(s)
    ensures ApplyAll(s.durable, s.staged) == Ok(s.extents)
  {
    ApplyAllConcat(s.base.extents, s.written, s.staged);
  }

  /** After a crash at any point of appending the pending records, the map reads back as the durable view with a
      prefix of the pending transitions applied. */
  lemma CrashReadsBack(header: Header, start: bytes, g: Geometry, s: Session, body: bytes) returns (p: nat)
    requires SoundMap(header, start, g) && StateOf(header, start, g) == Ok(s.base)
    requires Consistent(s) && Within(s.All(), g.sectorCount)
    requires start + Journal(s.First(), s.written) <= body <= start + Journal(s.First(), s.All())
    ensures p <= |s.staged| && ApplyAll(s.durable, s.staged[..p]).Ok?
    ensures StateOf(header, body, g).Ok?
    ensures SameView(StateOf(header, body, g).value.extents, Settled(ApplyAll(s.durable, s.staged[..p]).value))
  {
    hide Journal, StateOf, ApplyAll;
    WrittenIsPrefix(s);
    var all := Journal(s.First(), s.All());
    var k := |body| - |start|;
    assert body == start + all[..k];
    var m := CutSessionReadsBack(header, start, g, s, k);
    assert |s.written| <= m;
    p := m - |s.written|;
    assert s.All()[..m] == s.written + s.staged[..p];
    ApplyAllConcat(s.base.extents, s.written, s.staged[..p]);
  }

  /** The journal a session leaves ends on a record boundary again, so the next session starts from a sound map. */
  lemma SessionKeepsMapSound(header: Header, start: bytes, g: Geometry, s: Session)
    requires SoundMap(header, start, g) && Consistent(s) && Within(s.written, g.sectorCount)
    ensures Journalable(s.First(), s.written) && SoundMap(header, start + Journal(s.First(), s.written), g)
  {
    hide Journal, CheckpointLength, WholeRecords, JournalWithin, Sound;
    var j := Journal(s.First(), s.written);
    AppendedMap(start, j);
    JournalIsWhole(s.First(), s.written);
    JournalBounds(s.First(), s.written, g.sectorCount);
    WholeConcat(JournalOf(start), j);
    JournalWithinConcat(JournalOf(start), j, g.sectorCount);
  }

  /** A created map is sound and opens with nothing in it. */
  lemma EmptyMapIsSound(header: Header, g: Geometry)
    requires 0 < g.sectorSize && 0 < g.sectorCount < TWO_32
    requires header.sectorSize == g.sectorSize && header.sectorCount == g.sectorCount
    ensures SoundMap(header, EmptyMap(), g) && StateOf(header, EmptyMap(), g) == Ok(Checkpoint(0, []))
  {
    hide CheckpointCodec.Unmarshal, CheckpointCodec.Marshal, CheckpointLength, EmptyMap, ReplayStream, Sound;
    EmptyMapExists();
    CheckpointCodec.CheckpointReadsBack(Checkpoint(0, []));
    EmptyMapLength();
    var b := EmptyMap();
    assert b[..26] == b && b[26..] == [];
    EmptyReplay(g.sectorCount);
  }

  lemma EmptyReplay(capacity: nat)
    requires capacity < TWO_32
    ensures ReplayStream(Checkpoint(0, []), []) == Ok(Checkpoint(0, [])) && Sound([], capacity)
    ensures WholeRecords([]) && JournalWithin([], capacity)
  {
  }

  lemma EmptyMapLength()
    ensures |EmptyMap()| == 26 && CheckpointLength(EmptyMap()) == Ok(26)
  {
    hide Crc32c.Checksum;
    var cp := Checkpoint(0, []);
    EmptyMapExists();
    var h := CheckpointCodec.Head(12, 0, 0);
    CheckpointCodec.HeadFields(12, 0, 0);
    assert EmptyMap()[6..10] == h[6..10];
  }
}
