/** Replaying a journal over a checkpoint, from a buffer and from a stream (internal/mapfile/replay.go). */
module Replaying {
  import opened Prelude
  import opened Transitions
  import opened Extents
  import opened Coalescing
  import opened Applying
  import opened LittleEndian
  import opened ExtentCodec
  import opened JournalCodec

  datatype Checkpoint = Checkpoint(last: uint64, extents: seq<Extent>)

  datatype ReplayError = BadRecord(codec: CodecError) | OutOfSequence | Refused(apply: ApplyError) | OutsideCapacity | StreamFailed

  type Outcome = Result<Checkpoint, ReplayError>

  /** The sequence number is a uint64 and wraps; zero is never accepted in a record. */
  function Next(last: uint64): uint64 {
    Wrap64(last + 1)
  }

  function Step(cp: Checkpoint, r: JournalRecord): Outcome {
    if r.sequence != Next(cp.last) then Err(OutOfSequence)
    else if r.kind == ExtentStateChanged && r.extent.Some? then
      match Apply(cp.extents, r.extent.value)
      case Err(e) => Err(Refused(e))
      case Ok(s) => Ok(Checkpoint(r.sequence, s))
    else Ok(cp.(last := r.sequence))
  }

  /** The records of a buffer applied in order; a truncated tail is ignored. */
  function Absorb(cp: Checkpoint, journal: bytes): Outcome
    decreases |journal|
  {
    if journal == [] then Ok(cp)
    else
      match Unmarshal(journal)
      case Err(e) => if e == Truncated then Ok(cp) else Err(BadRecord(e))
      case Ok((r, n)) =>
        match Step(cp, r)
        case Err(e) => Err(e)
        case Ok(next) => Absorb(next, journal[n..])
  }

  /** A queued read that never finished is forgotten. */
  function SettledMark(m: Mark): Mark {
    if m.state == QUEUED then m.(state := UNKNOWN, confidence := NO_CONFIDENCE) else m
  }

  function Settled(s: seq<Extent>): (t: seq<Extent>)
    ensures |t| == |s| && forall i :: 0 <= i < |s| ==> t[i] == s[i].(mark := SettledMark(s[i].mark))
  {
    if s == [] then [] else Settled(s[..|s|-1]) + [s[|s|-1].(mark := SettledMark(s[|s|-1].mark))]
  }

  function Finish(o: Outcome): Outcome {
    match o
    case Err(e) => Err(e)
    case Ok(cp) => Ok(cp.(extents := Settled(cp.extents)))
  }

  function Replay(cp: Checkpoint, journal: bytes): Outcome {
    Finish(Absorb(cp, journal))
  }

  function Bounded(o: Outcome, capacity: uint64): Outcome {
    match o
    case Err(e) => Err(e)
    case Ok(cp) => if ValidSetWithin(cp.extents, capacity) then Ok(cp) else Err(OutsideCapacity)
  }

  /** The rewriting loop at the end of every replay. */
  method SettleExtents(s: seq<Extent>) returns (t: seq<Extent>)
    ensures t == Settled(s)
  {
    hide Settled;
    t := s;
    for index := 0 to |s|
      invariant |t| == |s|
      invariant forall k :: 0 <= k < index ==> t[k] == s[k].(mark := SettledMark(s[k].mark))
      invariant forall k :: index <= k < |s| ==> t[k] == s[k]
    {
      if t[index].mark.state == QUEUED {
        t := t[index := t[index].(mark := t[index].mark.(state := UNKNOWN, confidence := NO_CONFIDENCE))];
      }
    }
    assert t == Settled(s);
  }

  /** One accepted record: the sequence check and, for an extent transition, ApplyExtent. */
  method ApplyRecord(cp: Checkpoint, record: JournalRecord, expected: uint64) returns (o: Outcome)
    requires expected == Next(cp.last)
    ensures o == Step(cp, record)
    ensures o.Ok? ==> o.value.last == expected
  {
    if record.sequence != expected {
      return Err(OutOfSequence);
    }
    if record.kind == ExtentStateChanged && record.extent.Some? {
      var applied := ApplyExtent(cp.extents, record.extent.value);
      if applied.Err? {
        return Err(Refused(applied.error));
      }
      return Ok(Checkpoint(record.sequence, applied.value));
    }
    return Ok(cp.(last := record.sequence));
  }

  lemma AbsorbOne(cp: Checkpoint, journal: bytes, r: JournalRecord, n: nat)
    requires Unmarshal(journal) == Ok((r, n))
    ensures Absorb(cp, journal) == match Step(cp, r) case Err(e) => Err(e) case Ok(next) => Absorb(next, journal[n..])
  {
  }

  method ReplayJournal(cp: Checkpoint, journal: bytes) returns (o: Outcome)
    ensures o == Replay(cp, journal)
  {
    hide Unmarshal, Step;
    var next, offset, expected := cp, 0, Next(cp.last);
    ghost var absorbed := Absorb(cp, journal);
    while offset < |journal|
      invariant 0 <= offset <= |journal|
      invariant expected == Next(next.last)
      invariant absorbed == Absorb(next, journal[offset..])
    {
      var decoded := Unmarshal(journal[offset..]);
      if decoded.Err? {
        if decoded.error == Truncated {
          break;
        }
        return Err(BadRecord(decoded.error));
      }
      var (record, consumed) := decoded.value;
      AbsorbOne(next, journal[offset..], record, consumed);
      var applied := ApplyRecord(next, record, expected);
      if applied.Err? {
        return applied;
      }
      assert journal[offset..][consumed..] == journal[offset + consumed..];
      next := applied.value;
      expected := Next(expected);
      offset := offset + consumed;
    }
    assert absorbed == Ok(next);
    var settled := SettleExtents(next.extents);
    return Ok(next.(extents := settled));
  }

  // ----- the stream reader

  /** The stream reader sees the 14-byte head of a record before it knows whether the rest is there, and
      rejects an oversized payload at that point. */
  function AbsorbStream(cp: Checkpoint, stream: bytes): Outcome
    decreases |stream|
  {
    if |stream| < 14 then Ok(cp)
    else
      var length := Read32(stream[10..14]);
      if length > MAX_PAYLOAD then Err(BadRecord(PayloadTooLong))
      else if |stream| < FRAME_BYTES + length then Ok(cp)
      else
        match Unmarshal(stream[..FRAME_BYTES + length])
        case Err(e) => Err(BadRecord(e))
        case Ok((r, _)) =>
          match Step(cp, r)
          case Err(e) => Err(e)
          case Ok(next) => AbsorbStream(next, stream[FRAME_BYTES + length..])
  }

  function ReplayStream(cp: Checkpoint, stream: bytes): Outcome {
    Finish(AbsorbStream(cp, stream))
  }

  /** ReplayJournalReader (replay.go:77); any of its reads may fail. */
  method ReplayJournalReader(cp: Checkpoint, stream: bytes) returns (o: Outcome)
    ensures o == Err(StreamFailed) || o == ReplayStream(cp, stream)
  {
    hide Unmarshal, Step;
    var next, position, expected := cp, 0, Next(cp.last);
    ghost var absorbed := AbsorbStream(cp, stream);
    while true
      invariant 0 <= position <= |stream|
      invariant expected == Next(next.last)
      invariant absorbed == AbsorbStream(next, stream[position..])
      decreases |stream| - position
    {
      ghost var rest := stream[position..];
      var readable: bool := *;
      if !readable {
        return Err(StreamFailed);
      }
      if |stream| - position < 14 {
        break;
      }
      var header := stream[position..position + 14];
      assert header == rest[..14] && header[10..14] == rest[10..14];
      var length := Read32(header[10..14]);
      if length > MAX_PAYLOAD {
        return Err(BadRecord(PayloadTooLong));
      }
      var total := FRAME_BYTES + length;
      readable := *;
      if !readable {
        return Err(StreamFailed);
      }
      if |stream| - position < total {
        break;
      }
      var recordBytes := stream[position..position + total];
      assert recordBytes == rest[..total];
      var decoded := Unmarshal(recordBytes);
      if decoded.Err? {
        return Err(BadRecord(decoded.error));
      }
      var record := decoded.value.0;
      var applied := ApplyRecord(next, record, expected);
      if applied.Err? {
        return applied;
      }
      assert rest[total..] == stream[position + total..];
      next := applied.value;
      expected := Next(expected);
      position := position + total;
    }
    var settled := SettleExtents(next.extents);
    return Ok(next.(extents := settled));
  }

  /** What follows the last whole record has a head that declares an oversized payload. */
  predicate OversizedTail(journal: bytes)
    decreases |journal|
  {
    if |journal| < 14 then false
    else if Unmarshal(journal).Ok? then OversizedTail(journal[Unmarshal(journal).value.1..])
    else Read32(journal[10..14]) > MAX_PAYLOAD
  }

  lemma StreamHead(stream: bytes)
    requires |stream| >= 14 && Read32(stream[10..14]) <= MAX_PAYLOAD
    requires |stream| >= FRAME_BYTES + Read32(stream[10..14])
    ensures Unmarshal(stream[..FRAME_BYTES + Read32(stream[10..14])]) == Unmarshal(stream)
    ensures Unmarshal(stream).Ok? ==> Unmarshal(stream).value.1 == FRAME_BYTES + Read32(stream[10..14])
    ensures Unmarshal(stream) != Err(Truncated)
  {
    var total := FRAME_BYTES + Read32(stream[10..14]);
    var head := stream[..total];
    assert head[10..14] == stream[10..14];
    UnmarshalLocal(head, stream[total..]);
    assert head + stream[total..] == stream;
  }

  /** Stream and buffer agree whenever the buffer replay succeeds, except that the stream rejects a journal
      whose incomplete tail declares an oversized payload; when the buffer replay fails the stream fails. */
  lemma {:induction false} StreamRefinesBuffer(cp: Checkpoint, journal: bytes)
    ensures AbsorbStream(cp, journal).Ok? ==> AbsorbStream(cp, journal) == Absorb(cp, journal)
    ensures Absorb(cp, journal).Ok? ==> (AbsorbStream(cp, journal).Ok? <==> !OversizedTail(journal))
    decreases |journal|
  {
    if |journal| >= 14 {
      var length := Read32(journal[10..14]);
      if length <= MAX_PAYLOAD && |journal| >= FRAME_BYTES + length {
        StreamHead(journal);
        if Unmarshal(journal).Ok? {
          var (r, n) := Unmarshal(journal).value;
          if Step(cp, r).Ok? {
            StreamRefinesBuffer(Step(cp, r).value, journal[n..]);
          }
        }
      }
    }
  }

  // ----- composition

  predicate WholeRecords(journal: bytes)
    decreases |journal|
  {
    journal == [] || (Unmarshal(journal).Ok? && WholeRecords(journal[Unmarshal(journal).value.1..]))
  }

  function Then(o: Outcome, journal: bytes): Outcome {
    match o
    case Err(e) => Err(e)
    case Ok(cp) => Absorb(cp, journal)
  }

  /** Before settling, absorbing a concatenation is absorbing one part after the other. */
  lemma {:induction false} AbsorbConcat(cp: Checkpoint, j1: bytes, j2: bytes)
    requires WholeRecords(j1)
    ensures Absorb(cp, j1 + j2) == Then(Absorb(cp, j1), j2)
    decreases |j1|
  {
    hide Unmarshal, Step;
    if j1 == [] {
      assert j1 + j2 == j2;
    } else {
      UnmarshalLocal(j1, j2);
      var (r, n) := Unmarshal(j1).value;
      assert (j1 + j2)[n..] == j1[n..] + j2;
      if Step(cp, r).Ok? {
        AbsorbConcat(Step(cp, r).value, j1[n..], j2);
      }
    }
  }

  lemma {:induction false} WholeConcat(j1: bytes, j2: bytes)
    requires WholeRecords(j1) && WholeRecords(j2)
    ensures WholeRecords(j1 + j2)
    decreases |j1|
  {
    hide Unmarshal;
    if j1 == [] {
      assert j1 + j2 == j2;
    } else {
      UnmarshalLocal(j1, j2);
      var n := Unmarshal(j1).value.1;
      assert (j1 + j2)[n..] == j1[n..] + j2;
      WholeConcat(j1[n..], j2);
    }
  }

  /** Every extent a journal carries ends inside the capacity. */
  predicate JournalWithin(journal: bytes, capacity: nat)
    decreases |journal|
  {
    if journal == [] || Unmarshal(journal).Err? then true
    else
      var (r, n) := Unmarshal(journal).value;
      (r.extent.Some? ==> r.extent.value.End() <= capacity) && JournalWithin(journal[n..], capacity)
  }

  function SettledView(m: Option<Mark>): Option<Mark> {
    match m
    case None => None
    case Some(x) => Some(SettledMark(x))
  }

  /** Two lists that a replay would settle to the same sector view. */
  ghost predicate Similar(s: seq<Extent>, t: seq<Extent>) {
    forall lba: nat :: SettledView(At(s, lba)) == SettledView(At(t, lba))
  }

  lemma {:induction false} AtSettled(s: seq<Extent>, lba: nat)
    ensures At(Settled(s), lba) == SettledView(At(s, lba))
  {
    if s != [] {
      var p, e := s[..|s|-1], s[|s|-1];
      var e' := e.(mark := SettledMark(e.mark));
      AtSettled(p, lba);
      assert s == p + [e] && Settled(s) == Settled(p) + [e'];
      AtConcat(p, [e], lba);
      AtConcat(Settled(p), [e'], lba);
      AtOne(e, lba);
      AtOne(e', lba);
    }
  }

  /** A sector whose read never finished is unknown again; its attempts stand, and no other sector changes. */
  lemma QueuedForgotten(s: seq<Extent>, lba: nat)
    ensures At(Settled(s), lba).Some? <==> At(s, lba).Some?
    ensures At(s, lba).Some? && At(s, lba).value.state == QUEUED ==>
              At(Settled(s), lba) == Some(At(s, lba).value.(state := UNKNOWN, confidence := NO_CONFIDENCE))
    ensures At(s, lba).Some? && At(s, lba).value.state != QUEUED ==> At(Settled(s), lba) == At(s, lba)
  {
    hide At, Settled;
    AtSettled(s, lba);
  }

  lemma SettledValid(s: seq<Extent>, capacity: nat)
    requires ValidSet(s)
    ensures ValidSet(Settled(s))
    ensures Within(s, capacity) ==> Within(Settled(s), capacity)
  {
    hide Settled;
  }

  lemma SettlingKeepsPermission(current: Mark, next: Mark)
    ensures ValidMark(current) ==> (MayReplace(current, next) <==> MayReplace(SettledMark(current), next))
  {
  }

  lemma MarkValid(s: seq<Extent>, lba: nat)
    requires ValidSet(s) && At(s, lba).Some?
    ensures ValidMark(At(s, lba).value)
  {
    var i := AtFound(s, lba);
  }

  lemma SimilarPermits(s: seq<Extent>, t: seq<Extent>, c: Extent)
    requires ValidSet(s) && ValidSet(t) && Similar(s, t) && Permits(s, c)
    ensures Permits(t, c)
  {
    forall lba: nat | c.Covers(lba) && At(t, lba).Some? ensures MayReplace(At(t, lba).value, c.mark) {
      assert SettledView(At(s, lba)) == SettledView(At(t, lba));
      MarkValid(s, lba);
      MarkValid(t, lba);
      SettlingKeepsPermission(At(s, lba).value, c.mark);
      SettlingKeepsPermission(At(t, lba).value, c.mark);
    }
  }

  lemma SimilarApply(s: seq<Extent>, t: seq<Extent>, c: Extent, capacity: nat)
    requires Sound(s, capacity) && Sound(t, capacity) && Similar(s, t) && c.End() <= capacity
    ensures Apply(s, c).Ok? <==> Apply(t, c).Ok?
    ensures Apply(s, c).Ok? ==>
              && Sound(Apply(s, c).value, capacity) && Sound(Apply(t, c).value, capacity)
              && Similar(Apply(s, c).value, Apply(t, c).value)
  {
    ApplySucceedsIff(s, c);
    ApplySucceedsIff(t, c);
    assert Similar(t, s);
    if c.Valid() && Permits(s, c) {
      SimilarPermits(s, t, c);
      ApplyRefinesOverride(s, c, capacity);
      ApplyRefinesOverride(t, c, capacity);
      var s', t' := Apply(s, c).value, Apply(t, c).value;
      forall lba: nat ensures SettledView(At(s', lba)) == SettledView(At(t', lba)) {
        assert At(s', lba) == if c.Covers(lba) then Some(c.mark) else At(s, lba);
        assert At(t', lba) == if c.Covers(lba) then Some(c.mark) else At(t, lba);
        assert SettledView(At(s, lba)) == SettledView(At(t, lba));
      }
    } else if c.Valid() && Permits(t, c) {
      SimilarPermits(t, s, c);
      assert false;
    }
  }

  lemma {:induction false} AbsorbSimilar(a: Checkpoint, b: Checkpoint, journal: bytes, capacity: nat)
    requires a.last == b.last && Sound(a.extents, capacity) && Sound(b.extents, capacity) && Similar(a.extents, b.extents)
    requires JournalWithin(journal, capacity)
    ensures Absorb(a, journal).Ok? <==> Absorb(b, journal).Ok?
    ensures Absorb(a, journal).Ok? ==>
              && Absorb(a, journal).value.last == Absorb(b, journal).value.last
              && Sound(Absorb(a, journal).value.extents, capacity)
              && Similar(Absorb(a, journal).value.extents, Absorb(b, journal).value.extents)
    decreases |journal|
  {
    if journal != [] && Unmarshal(journal).Ok? {
      var (r, n) := Unmarshal(journal).value;
      if r.kind == ExtentStateChanged && r.extent.Some? {
        SimilarApply(a.extents, b.extents, r.extent.value, capacity);
      }
      if Step(a, r).Ok? {
        AbsorbSimilar(Step(a, r).value, Step(b, r).value, journal[n..], capacity);
      }
    }
  }

  lemma SettledIsSimilar(s: seq<Extent>)
    ensures Similar(s, Settled(s))
  {
    forall lba: nat ensures SettledView(At(s, lba)) == SettledView(At(Settled(s), lba)) {
      AtSettled(s, lba);
    }
  }

  ghost predicate SameOutcome(a: Outcome, b: Outcome) {
    && (a.Ok? <==> b.Ok?)
    && (a.Ok? ==> a.value.last == b.value.last && SameView(a.value.extents, b.value.extents))
  }

  lemma AbsorbSound(cp: Checkpoint, journal: bytes, capacity: nat)
    requires Sound(cp.extents, capacity) && JournalWithin(journal, capacity) && Absorb(cp, journal).Ok?
    ensures Sound(Absorb(cp, journal).value.extents, capacity)
  {
    AbsorbSimilar(cp, cp, journal, capacity);
  }

  function ThenReplay(o: Outcome, journal: bytes): Outcome {
    match o
    case Err(e) => Err(e)
    case Ok(cp) => Replay(cp, journal)
  }

  lemma {:induction false} JournalWithinConcat(j1: bytes, j2: bytes, capacity: nat)
    requires WholeRecords(j1)
    ensures JournalWithin(j1 + j2, capacity) <==> JournalWithin(j1, capacity) && JournalWithin(j2, capacity)
    decreases |j1|
  {
    hide Unmarshal;
    if j1 == [] {
      assert j1 + j2 == j2;
    } else {
      UnmarshalLocal(j1, j2);
      var n := Unmarshal(j1).value.1;
      assert (j1 + j2)[n..] == j1[n..] + j2;
      JournalWithinConcat(j1[n..], j2, capacity);
    }
  }

  /** Replaying in two sessions, with the settling in between, gives the sector view of replaying at once. */
  lemma ReplayComposes(cp: Checkpoint, j1: bytes, j2: bytes, capacity: nat)
    requires WholeRecords(j1) && Sound(cp.extents, capacity) && JournalWithin(j1 + j2, capacity)
    ensures SameOutcome(Replay(cp, j1 + j2), ThenReplay(Replay(cp, j1), j2))
  {
    hide Absorb, Settled, WholeRecords, JournalWithin, At, Sound, ValidSet, Within;
    AbsorbConcat(cp, j1, j2);
    JournalWithinConcat(j1, j2, capacity);
    if Absorb(cp, j1).Ok? {
      var a := Absorb(cp, j1).value;
      var b := a.(extents := Settled(a.extents));
      AbsorbSound(cp, j1, capacity);
      SettledSound(a.extents, capacity);
      SettledIsSimilar(a.extents);
      AbsorbSimilar(a, b, j2, capacity);
      if Absorb(a, j2).Ok? {
        SimilarSettlesAlike(Absorb(a, j2).value.extents, Absorb(b, j2).value.extents);
      }
    }
  }

  lemma SettledSound(s: seq<Extent>, capacity: nat)
    requires Sound(s, capacity)
    ensures Sound(Settled(s), capacity)
  {
    SettledValid(s, capacity);
  }

  lemma SimilarSettlesAlike(s: seq<Extent>, t: seq<Extent>)
    requires Similar(s, t)
    ensures SameView(Settled(s), Settled(t))
  {
    hide At, Settled;
    forall lba: nat ensures At(Settled(s), lba) == At(Settled(t), lba) {
      AtSettled(s, lba);
      AtSettled(t, lba);
      assert SettledView(At(s, lba)) == SettledView(At(t, lba));
    }
  }

  // ----- monotonicity

  lemma AdvancesTransitive(a: Option<Mark>, b: Option<Mark>, c: Option<Mark>)
    requires Advances(a, b) && Advances(b, c)
    ensures Advances(a, c)
  {
  }

  lemma {:induction false} AbsorbAdvances(cp: Checkpoint, journal: bytes, capacity: nat, lba: nat)
    requires Sound(cp.extents, capacity) && JournalWithin(journal, capacity) && Absorb(cp, journal).Ok?
    ensures Advances(At(cp.extents, lba), At(Absorb(cp, journal).value.extents, lba))
    decreases |journal|
  {
    if journal != [] && Unmarshal(journal).Ok? {
      var (r, n) := Unmarshal(journal).value;
      var next := Step(cp, r).value;
      if r.kind == ExtentStateChanged && r.extent.Some? {
        var c := r.extent.value;
        ApplyOkPermits(cp.extents, c);
        ApplyRefinesOverride(cp.extents, c, capacity);
        assert At(next.extents, lba) == if c.Covers(lba) then Some(c.mark) else At(cp.extents, lba);
      }
      AbsorbAdvances(next, journal[n..], capacity, lba);
      AdvancesTransitive(At(cp.extents, lba), At(next.extents, lba), At(Absorb(cp, journal).value.extents, lba));
    }
  }

  /** Over every accepted journal covered sectors stay covered, attempts never fall, data claims are never
      withdrawn and a reconstructed sector stays reconstructed. */
  lemma ReplayAdvances(cp: Checkpoint, journal: bytes, capacity: nat, lba: nat)
    requires Sound(cp.extents, capacity) && JournalWithin(journal, capacity) && Replay(cp, journal).Ok?
    ensures Advances(At(cp.extents, lba), At(Replay(cp, journal).value.extents, lba))
  {
    AbsorbAdvances(cp, journal, capacity, lba);
    AtSettled(Absorb(cp, journal).value.extents, lba);
  }

  /** The journal, read up to its tail, carries a transition of this sector to this state. */
  predicate Marks(journal: bytes, state: uint8, lba: nat)
    decreases |journal|
  {
    journal != [] && Unmarshal(journal).Ok? &&
    var (r, n) := Unmarshal(journal).value;
    || (r.kind == ExtentStateChanged && r.extent.Some? && r.extent.value.Covers(lba) && r.extent.value.mark.state == state)
    || Marks(journal[n..], state, lba)
  }

  predicate Confirmed(m: Option<Mark>) {
    m.Some? && (m.value.state == VERIFIED || m.value.state == CONFLICTING || m.value.state == RECONSTRUCTED)
  }

  lemma NotDirectlyDemoted(current: Mark, next: Mark)
    requires Confirmed(Some(current)) && MayReplace(current, next) && next.state != CHECKSUM_ERROR
    ensures Confirmed(Some(next))
  {
  }

  /** Verified is not protected as reconstructed is, but only a checksum error opens the way back: an accepted journal
      after which a verified sector is no more than read carries one for it. */
  lemma {:induction false} DemotionNeedsChecksumError(cp: Checkpoint, journal: bytes, capacity: nat, lba: nat)
    requires Sound(cp.extents, capacity) && JournalWithin(journal, capacity) && Absorb(cp, journal).Ok?
    requires Confirmed(At(cp.extents, lba)) && !Confirmed(At(Absorb(cp, journal).value.extents, lba))
    ensures Marks(journal, CHECKSUM_ERROR, lba)
    decreases |journal|
  {
    hide Unmarshal, Apply;
    assert journal != [] && Unmarshal(journal).Ok?;
    var (r, n) := Unmarshal(journal).value;
    var next := Step(cp, r).value;
    AbsorbOne(cp, journal, r, n);
    if r.kind == ExtentStateChanged && r.extent.Some? {
      var c := r.extent.value;
      ApplyOkPermits(cp.extents, c);
      ApplyRefinesOverride(cp.extents, c, capacity);
      assert At(next.extents, lba) == if c.Covers(lba) then Some(c.mark) else At(cp.extents, lba);
      if c.Covers(lba) && c.mark.state != CHECKSUM_ERROR {
        NotDirectlyDemoted(At(cp.extents, lba).value, c.mark);
      }
    }
    if !Marks(journal, CHECKSUM_ERROR, lba) {
      DemotionNeedsChecksumError(next, journal[n..], capacity, lba);
    }
  }
}
