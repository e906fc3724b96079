/** Reopening a map for writing: every session over it reads back exactly when its journal ends on a record boundary.
    Open (internal/recoverymap/store_open.go:11) ignores a torn tail, leaves it in the file and appends behind it. */
module TornSessions {
  import opened Prelude
  import opened Transitions
  import opened Extents
  import opened Applying
  import LittleEndian
  import Crc32c
  import CheckpointCodec
  import opened ExtentCodec
  import opened JournalCodec
  import opened Replaying
  import opened TornTails
  import opened RecoveryMap
  import opened Media
  import opened Sessions
  import opened CrashRecovery

  // ----- what is behind a torn tail

  lemma RecordAlone(b: bytes, r: JournalRecord, n: nat)
    requires Unmarshal(b) == Ok((r, n))
    ensures Unmarshal(b[..n]) == Ok((r, n))
  {
    var f := b[..n];
    assert f[10..14] == b[10..14];
    assert f[..n] == f;
  }

  /** A journal that is accepted without ending on a record boundary ends in the beginning of a record. */
  lemma {:induction false} TornSplit(cp: Checkpoint, j: bytes) returns (w: bytes, t: bytes)
    requires Absorb(cp, j).Ok? && !WholeRecords(j)
    ensures j == w + t && t != [] && Unmarshal(t) == Err(Truncated)
    ensures WholeRecords(w) && Absorb(cp, w) == Absorb(cp, j)
    decreases |j|
  {
    hide Unmarshal, Step;
    if Unmarshal(j).Err? {
      w, t := [], j;
    } else {
      var (r, n) := Unmarshal(j).value;
      AbsorbOne(cp, j, r, n);
      var v;
      v, t := TornSplit(Step(cp, r).value, j[n..]);
      w := j[..n] + v;
      RecordAlone(j, r, n);
      UnmarshalLocal(j[..n], v);
      assert w[n..] == v;
      AbsorbOne(cp, w, r, n);
      assert j == w + t;
    }
  }

  lemma ExtentRecordShape(b: bytes)
    requires Unmarshal(b).Ok? && Unmarshal(b).value.0.extent.Some?
    ensures Unmarshal(b).value.1 == RECORD_BYTES <= |b|
    ensures Unmarshal(b).value.0.extent.value.mark.hash[15] == b[52]
  {
    hide Crc32c.Checksum;
    var n := Unmarshal(b).value.1;
    var f := b[..n];
    var payload := f[14..n-4];
    assert Unmarshal(b).value.0.extent == Some(ParseExtent(payload));
    assert ParseExtent(payload).mark.hash == payload[23..39];
  }

  lemma {:induction false} ShortHasNoExtent(cp: Checkpoint, b: bytes)
    requires |b| < RECORD_BYTES && Absorb(cp, b).Ok?
    ensures Absorb(cp, b).value.extents == cp.extents
    decreases |b|
  {
    hide Unmarshal;
    if b != [] && Unmarshal(b).Ok? {
      var (r, n) := Unmarshal(b).value;
      if r.extent.Some? {
        ExtentRecordShape(b);
      }
      ShortHasNoExtent(Step(cp, r).value, b[n..]);
    }
  }

  lemma WholeInside(t: bytes, r: bytes)
    requires Unmarshal(t + r).Ok? && Unmarshal(t + r).value.1 <= |t|
    ensures Unmarshal(t) == Unmarshal(t + r)
  {
    var n := Unmarshal(t + r).value.1;
    assert (t + r)[10..14] == t[10..14];
    assert (t + r)[..n] == t[..n];
  }

  /** What a torn tail has swallowed begins in it and ends beyond it. */
  lemma SwallowsMore(t: bytes, r: bytes)
    requires Unmarshal(t) == Err(Truncated) && Unmarshal(t + r).Ok?
    ensures Unmarshal(t + r).value.1 > |t|
  {
    hide Unmarshal;
    if Unmarshal(t + r).value.1 <= |t| {
      WholeInside(t, r);
    }
  }

  /** A record behind a torn tail is not read as it was written: nothing is accepted, or records without an extent, or
      one transition whose last hash byte is found where the tail has shifted it from. */
  lemma BehindTornTail(a: Checkpoint, t: bytes, r: bytes) returns (e: Option<Extent>)
    requires t != [] && Unmarshal(t) == Err(Truncated) && |r| == RECORD_BYTES && Absorb(a, t + r).Ok?
    ensures Absorb(a, t + r).value.last == a.last ||
            (if e.None? then Absorb(a, t + r).value.extents == a.extents
             else Apply(a.extents, e.value) == Ok(Absorb(a, t + r).value.extents) && e.value.mark.hash[15] == (t + r)[52])
  {
    hide Unmarshal, Apply;
    var b := t + r;
    e := None;
    if Unmarshal(b).Ok? {
      var (record, n) := Unmarshal(b).value;
      SwallowsMore(t, r);
      AbsorbOne(a, b, record, n);
      ShortHasNoExtent(Step(a, record).value, b[n..]);
      if record.kind == ExtentStateChanged && record.extent.Some? {
        ExtentRecordShape(b);
        e := record.extent;
      }
    }
  }

  // ----- a record that does not contain itself shifted

  lemma {:induction false} AllUsed(used: seq<uint8>, n: nat)
    requires n <= 256 && forall x: uint8 :: x < n ==> x in used
    ensures n <= |used|
    decreases n
  {
    if n > 0 {
      var last: uint8 := n - 1;
      assert last in used;
      var i :| 0 <= i < |used| && used[i] == last;
      var rest := used[..i] + used[i+1..];
      forall x: uint8 | x < n - 1 ensures x in rest {
        assert x in used;
        var k :| 0 <= k < |used| && used[k] == x;
        assert rest[if k < i then k else k - 1] == x;
      }
      AllUsed(rest, n - 1);
    }
  }

  lemma FreshByte(used: seq<uint8>) returns (h: uint8)
    requires |used| < 256
    ensures h !in used
  {
    if forall x: uint8 :: x in used {
      AllUsed(used, 256);
    }
    h :| h !in used;
  }

  function Stamped(e: Extent, h: uint8): Extent {
    e.(mark := e.mark.(hash := e.mark.hash[15 := h]))
  }

  /** The last hash byte is byte 52 of a record; the bytes before it do not depend on it. */
  lemma StampShows(sequence: nat, e: Extent, h: uint8)
    requires 0 < sequence < TWO_64 && e.Valid()
    ensures Stamped(e, h).Valid() && RecordBytes(sequence, Stamped(e, h))[..52] == RecordBytes(sequence, e)[..52]
  {
    hide Crc32c.Checksum, LittleEndian.LE;
    var f := Stamped(e, h);
    MarshalledIsFrame(ExtentRecord(sequence, e));
    MarshalledIsFrame(ExtentRecord(sequence, f));
    assert f.mark.hash[..15] == e.mark.hash[..15];
    assert ExtentBytes(f)[..38] == ExtentBytes(e)[..38];
    var x, y := Body(5, sequence, ExtentBytes(e)), Body(5, sequence, ExtentBytes(f));
    assert x[..14] == y[..14] && x[14..52] == ExtentBytes(e)[..38] && y[14..52] == ExtentBytes(f)[..38];
    assert x[..52] == x[..14] + x[14..52] && y[..52] == y[..14] + y[14..52];
    assert RecordBytes(sequence, e)[..52] == x[..52] && RecordBytes(sequence, f)[..52] == y[..52];
  }

  function HashByte(m: Option<Mark>): seq<uint8> {
    if m.Some? then [m.value.hash[15]] else []
  }

  /** A transition of the first sector that any valid list accepts and whose last hash byte is nowhere before it in its
      record, nor in the tail where it would be looked for, nor in the sector's present mark. */
  lemma Telltale(s: seq<Extent>, sequence: nat, t: bytes, capacity: nat) returns (e: Extent)
    requires Sound(s, capacity) && 0 < capacity && 0 < sequence < TWO_64 && t != []
    requires forall m :: At(s, 0) == Some(m) ==> m.state != QUEUED
    ensures e.Valid() && e.start == 0 && e.sectors == 1 && e.mark.state != QUEUED
    ensures Apply(s, e).Ok? && At(Apply(s, e).value, 0) == Some(e.mark)
    ensures e.mark.hash[15] != (t + RecordBytes(sequence, e))[52] && e.mark.hash[15] !in HashByte(At(s, 0))
  {
    hide RecordBytes;
    var m := At(s, 0);
    if m.Some? {
      MarkValid(s, 0);
    }
    var plain := Extent(0, 1, if m.Some? then m.value else PlainMark(READ_UNVERIFIED, SINGLE_READ, 1));
    var head := RecordBytes(sequence, plain)[..52];
    var h := FreshByte(head + HashByte(m) + if |t| > 52 then [t[52]] else []);
    e := Stamped(plain, h);
    StampShows(sequence, plain, h);
    var r := RecordBytes(sequence, e);
    if |t| <= 52 {
      assert (t + r)[52] == r[..52][52 - |t|] == head[52 - |t|];
    } else {
      assert (t + r)[52] == t[52];
    }
    StampedApplies(s, e, capacity);
  }

  lemma StampedApplies(s: seq<Extent>, e: Extent, capacity: nat)
    requires Sound(s, capacity) && 0 < capacity && e.Valid() && e.start == 0 && e.sectors == 1
    requires At(s, 0).Some? ==> MayReplace(At(s, 0).value, e.mark)
    ensures Apply(s, e).Ok? && At(Apply(s, e).value, 0) == Some(e.mark)
  {
    ApplyRefinesOverride(s, e, capacity);
    assert e.Covers(0);
  }

  // ----- sessions over a torn map

  /** A session that journals one transition. */
  function OneTransition(base: Checkpoint, e: Extent): Session
    requires base.last + 1 < TWO_64 && e.Valid() && Apply(base.extents, e).Ok?
  {
    Appended(Begun(base), e, Apply(base.extents, e).value)
  }

  lemma OneTransitionFields(base: Checkpoint, e: Extent)
    requires base.last + 1 < TWO_64 && e.Valid() && Apply(base.extents, e).Ok?
    ensures var s := OneTransition(base, e);
            && s.base == base && s.written == [e] && s.staged == [] && s.durable == Apply(base.extents, e).value
            && s.First() == base.last + 1 && s.All() == [e]
  {
    hide Apply;
  }

  lemma OneTransitionConsistent(base: Checkpoint, e: Extent)
    requires base.last + 1 < TWO_64 && e.Valid() && Apply(base.extents, e).Ok?
    ensures Consistent(OneTransition(base, e))
    ensures Journalable(base.last + 1, [e]) && Journal(base.last + 1, [e]) == RecordBytes(base.last + 1, e)
  {
    hide Apply, RecordBytes, Consistent, Journal;
    BegunConsistent(base);
    AppendedConsistent(Begun(base), e, Apply(base.extents, e).value, []);
    JournalOne(base.last + 1, e);
  }

  /** What the reader makes of one more record behind a torn tail, before settling. */
  lemma ReadBehindTornTail(header: Header, start: bytes, g: Geometry, a: Checkpoint, w: bytes, t: bytes, r: bytes) returns (b: Checkpoint)
    requires StateOf(header, start, g).Ok? && StateOf(header, start + r, g).Ok?
    requires CheckpointLength(start).Ok?
    requires CheckpointCodec.Unmarshal(start[..CheckpointLength(start).value], CheckpointCodec.DEFAULT_LIMITS).Ok?
    requires JournalOf(start) == w + t && WholeRecords(w) && Absorb(CheckpointOf(start), w) == Ok(a)
    ensures Absorb(a, t + r) == Ok(b) && StateOf(header, start + r, g) == Ok(b.(extents := Settled(b.extents)))
  {
    hide Absorb, StateOf, Settled, CheckpointLength, WholeRecords, CheckpointOf, JournalOf, CheckpointCodec.Unmarshal;
    b := OpenedFrom(header, start + r, g);
    AppendedParts(start, r);
    Associative(w, t, r);
    AbsorbConcat(CheckpointOf(start), w, t + r);
  }

  /** Over every map that opens with a torn tail there is a session of a single transition that is not read back. */
  lemma TornSessionLost(header: Header, start: bytes, g: Geometry) returns (s: Session)
    requires MapWithin(header, start, g) && StateOf(header, start, g).Ok? && StateOf(header, start, g).value.last + 1 < TWO_64
    requires !WholeRecords(JournalOf(start))
    ensures SessionOver(header, start, g, s) && |s.written| == 1 && Journalable(s.First(), s.written)
    ensures !ReadsBack(header, start, g, s)
  {
    hide Absorb, StateOf, Settled, CheckpointLength, WholeRecords, CheckpointOf, JournalOf, CheckpointCodec.Unmarshal, Consistent, Apply,
         Journal, RecordBytes, OneTransition, At;
    var a := OpenedFrom(header, start, g);
    var base := StateOf(header, start, g).value;
    OpensWithin(header, start, g);
    var w, t := TornSplit(CheckpointOf(start), JournalOf(start));
    AtSettled(a.extents, 0);
    var e := Telltale(base.extents, base.last + 1, t, g.sectorCount);
    s := OneTransition(base, e);
    OneTransitionFields(base, e);
    OneTransitionConsistent(base, e);
    var r := RecordBytes(base.last + 1, e);
    if ReadsBack(header, start, g, s) {
      var b := ReadBehindTornTail(header, start, g, a, w, t, r);
      var swallowed := BehindTornTail(a, t, r);
      assert At(Settled(b.extents), 0) == At(Settled(s.durable), 0);
      AtSettled(b.extents, 0);
      AtSettled(s.durable, 0);
      if swallowed.Some? {
        ApplyKeepsOrLoses(a.extents, swallowed.value, 0);
      }
      assert false;
    }
  }

  lemma OpensWithin(header: Header, start: bytes, g: Geometry)
    requires MapWithin(header, start, g) && StateOf(header, start, g).Ok?
    ensures 0 < g.sectorCount && Sound(StateOf(header, start, g).value.extents, g.sectorCount)
    ensures CheckpointLength(start).Ok?
    ensures CheckpointCodec.Unmarshal(start[..CheckpointLength(start).value], CheckpointCodec.DEFAULT_LIMITS).Ok?
  {
    hide CheckpointCodec.Unmarshal, ReplayStream;
  }

  ghost predicate EverySessionReadsBack(header: Header, start: bytes, g: Geometry) {
    forall s: Session :: SessionOver(header, start, g, s) ==> Journalable(s.First(), s.written) && ReadsBack(header, start, g, s)
  }

  /** For every map that opens: all that sessions over it journal is read back if and only if its journal ends on a
      record boundary. */
  lemma SessionsReadBackIff(header: Header, start: bytes, g: Geometry)
    requires MapWithin(header, start, g) && StateOf(header, start, g).Ok? && StateOf(header, start, g).value.last + 1 < TWO_64
    ensures EverySessionReadsBack(header, start, g) <==> WholeRecords(JournalOf(start))
  {
    hide SessionOver, ReadsBack, StateOf, WholeRecords, JournalOf, Journal;
    if WholeRecords(JournalOf(start)) {
      forall s: Session | SessionOver(header, start, g, s) ensures Journalable(s.First(), s.written) && ReadsBack(header, start, g, s) {
        DurableReadsBack(header, start, g, s);
      }
    } else {
      var s := TornSessionLost(header, start, g);
      assert SessionOver(header, start, g, s);
    }
  }
}
