/** A journal cut anywhere replays as its longest whole-record prefix (internal/mapfile/replay.go:29-50,
    journal_codec.go:28-45). */
module TornTails {
  import opened Prelude
  import opened Transitions
  import opened Extents
  import opened Applying
  import opened ExtentCodec
  import opened JournalCodec
  import opened Replaying

  predicate Writable(rs: seq<JournalRecord>) {
    forall i :: 0 <= i < |rs| ==> Marshal(rs[i]).Ok?
  }

  /** The journal AppendJournalRecord builds from a list of records. */
  function Encode(rs: seq<JournalRecord>): bytes
    requires Writable(rs)
  {
    if rs == [] then [] else Marshal(rs[0]).value + Encode(rs[1..])
  }

  /** How many records lie wholly within the first k bytes. */
  function WholeCount(rs: seq<JournalRecord>, k: nat): (m: nat)
    requires Writable(rs)
    ensures m <= |rs|
  {
    if rs == [] || k < |Marshal(rs[0]).value| then 0
    else 1 + WholeCount(rs[1..], k - |Marshal(rs[0]).value|)
  }

  lemma {:induction false} EncodeConcat(a: seq<JournalRecord>, b: seq<JournalRecord>)
    requires Writable(a) && Writable(b)
    ensures Writable(a + b) && Encode(a + b) == Encode(a) + Encode(b)
  {
    hide Marshal;
    if a == [] {
      assert a + b == b;
    } else {
      assert (a + b)[1..] == a[1..] + b;
      EncodeConcat(a[1..], b);
    }
  }

  lemma EncodeOne(r: JournalRecord)
    requires Marshal(r).Ok?
    ensures Encode([r]) == Marshal(r).value
  {
    assert Encode([r][1..]) == [];
  }

  /** m is the largest number of records that fit in k bytes. */
  lemma {:induction false} WholeCountIsLongest(rs: seq<JournalRecord>, k: nat)
    requires Writable(rs)
    ensures var m := WholeCount(rs, k);
            |Encode(rs[..m])| <= k && (m < |rs| ==> k < |Encode(rs[..m+1])|)
  {
    hide Marshal;
    var m := WholeCount(rs, k);
    if rs != [] && |Marshal(rs[0]).value| <= k {
      WholeCountIsLongest(rs[1..], k - |Marshal(rs[0]).value|);
      assert rs[..m][1..] == rs[1..][..m-1];
      if m < |rs| {
        assert rs[..m+1][1..] == rs[1..][..m];
      }
    } else if rs != [] {
      assert rs[..1] == [rs[0]];
      EncodeOne(rs[0]);
    }
  }

  lemma MarshalledIsFrame(r: JournalRecord)
    requires Marshal(r).Ok?
    ensures PayloadBytes(r).Ok? && |PayloadBytes(r).value| <= MAX_PAYLOAD
    ensures Marshal(r).value == Frame(TypeCode(r.kind), r.sequence, PayloadBytes(r).value)
  {
  }

  lemma {:induction false} TornTailAbsorbs(cp: Checkpoint, rs: seq<JournalRecord>, k: nat)
    requires Writable(rs) && k <= |Encode(rs)|
    ensures Absorb(cp, Encode(rs)[..k]) == Absorb(cp, Encode(rs[..WholeCount(rs, k)]))
    decreases |rs|
  {
    hide Unmarshal, Step, Marshal, Frame;
    var m := WholeCount(rs, k);
    if rs != [] {
      var r, rest := rs[0], Encode(rs[1..]);
      var first := Marshal(r).value;
      MarshalledIsFrame(r);
      var payload := PayloadBytes(r).value;
      if k < |first| {
        assert Encode(rs)[..k] == first[..k];
        ProperPrefixIsTruncated(TypeCode(r.kind), r.sequence, payload, k);
      } else {
        var cut := Encode(rs)[..k];
        var tail := rest[..k - |first|];
        assert cut == first + tail;
        assert rs[..m][1..] == rs[1..][..m-1];
        var whole := Encode(rs[1..][..m-1]);
        assert Encode(rs[..m]) == first + whole;
        UnmarshalFrameSame(TypeCode(r.kind), r.sequence, payload, tail, whole);
        if Unmarshal(cut).Ok? {
          var (read, n) := Unmarshal(cut).value;
          assert cut[n..] == tail && (first + whole)[n..] == whole;
          AbsorbOne(cp, cut, read, n);
          AbsorbOne(cp, first + whole, read, n);
          if Step(cp, read).Ok? {
            TornTailAbsorbs(Step(cp, read).value, rs[1..], k - |first|);
          }
        }
      }
    }
  }

  lemma UnmarshalFrameSame(code: uint16, sequence: uint64, payload: bytes, a: bytes, b: bytes)
    requires |payload| <= MAX_PAYLOAD
    ensures var f := Frame(code, sequence, payload);
            && Unmarshal(f + a) == Unmarshal(f + b) != Err(Truncated)
            && (Unmarshal(f + a).Ok? ==> Unmarshal(f + a).value.1 == |f|)
            && |f| > 0
  {
    UnmarshalOfFrame(code, sequence, payload, a);
    UnmarshalOfFrame(code, sequence, payload, b);
    DecodedNeverTruncated(DecodeType(code), sequence, payload);
  }

  lemma DecodedNeverTruncated(kind: Result<RecordType, CodecError>, sequence: uint64, payload: bytes)
    ensures kind.Ok? ==> Decoded(kind.value, sequence, payload) != Err(Truncated)
  {
  }

  /** For any records and any cut point, replaying the cut journal is replaying the longest whole-record prefix. */
  lemma TornTailReplays(cp: Checkpoint, rs: seq<JournalRecord>, k: nat)
    requires Writable(rs) && k <= |Encode(rs)|
    ensures Replay(cp, Encode(rs)[..k]) == Replay(cp, Encode(rs[..WholeCount(rs, k)]))
    ensures var m := WholeCount(rs, k);
            |Encode(rs[..m])| <= k && (m < |rs| ==> k < |Encode(rs[..m+1])|)
  {
    TornTailAbsorbs(cp, rs, k);
    WholeCountIsLongest(rs, k);
  }

  // ----- journals of extent transitions, as the store writes them

  function ExtentRecord(sequence: uint64, e: Extent): JournalRecord {
    JournalRecord(ExtentStateChanged, sequence, Some(e), [])
  }

  const RECORD_BYTES := 57

  /** Valid extents numbered on from a first sequence number that does not run out. */
  predicate Journalable(first: nat, es: seq<Extent>) {
    && 0 < first && first + |es| <= TWO_64
    && forall i :: 0 <= i < |es| ==> es[i].Valid()
  }

  function ExtentRecords(first: nat, es: seq<Extent>): (rs: seq<JournalRecord>)
    requires Journalable(first, es)
    ensures |rs| == |es| && forall i :: 0 <= i < |rs| ==> rs[i] == ExtentRecord(first + i, es[i])
    decreases |es|
  {
    if es == [] then [] else [ExtentRecord(first, es[0])] + ExtentRecords(first + 1, es[1..])
  }

  function RecordBytes(sequence: nat, e: Extent): (b: bytes)
    requires 0 < sequence < TWO_64 && e.Valid()
    ensures Marshal(ExtentRecord(sequence, e)) == Ok(b) && |b| == RECORD_BYTES
  {
    Marshal(ExtentRecord(sequence, e)).value
  }

  /** The journal bytes of consecutive extent records. */
  function Journal(first: nat, es: seq<Extent>): (b: bytes)
    requires Journalable(first, es)
    ensures |b| == 57 * |es|
    decreases |es|
  {
    if es == [] then [] else RecordBytes(first, es[0]) + Journal(first + 1, es[1..])
  }

  lemma JournalableParts(first: nat, a: seq<Extent>, middle: nat, b: seq<Extent>)
    requires middle == first + |a|
    ensures Journalable(first, a + b) <==> Journalable(first, a) && Journalable(middle, b)
  {
    var s := a + b;
    if Journalable(first, s) {
      assert forall i :: 0 <= i < |a| ==> a[i] == s[i];
      assert forall i :: 0 <= i < |b| ==> b[i] == s[|a| + i];
    }
  }

  lemma {:induction false} JournalConcat(first: nat, a: seq<Extent>, middle: nat, b: seq<Extent>)
    requires Journalable(first, a + b) && middle == first + |a|
    ensures Journalable(first, a) && Journalable(middle, b)
    ensures Journal(first, a + b) == Journal(first, a) + Journal(middle, b)
    decreases |a|
  {
    hide RecordBytes, Journal, Journalable;
    JournalableParts(first, a, middle, b);
    if a == [] {
      assert a + b == b;
      JournalNothing(first);
    } else {
      assert (a + b)[1..] == a[1..] + b;
      JournalTail(first, a + b);
      JournalConcat(first + 1, a[1..], middle, b);
      JournalConcatStep(first, a, middle, b);
    }
  }

  lemma JournalConcatStep(first: nat, a: seq<Extent>, middle: nat, b: seq<Extent>)
    requires a != [] && Journalable(first, a) && Journalable(first, a + b) && Journalable(middle, b)
    requires Journalable(first + 1, a[1..] + b) && Journalable(first + 1, a[1..])
    requires Journal(first + 1, a[1..] + b) == Journal(first + 1, a[1..]) + Journal(middle, b)
    ensures Journal(first, a + b) == Journal(first, a) + Journal(middle, b)
  {
    hide RecordBytes, Journal, Journalable;
    assert (a + b)[1..] == a[1..] + b && (a + b)[0] == a[0];
    JournalTail(first, a + b);
    JournalTail(first, a);
    Associative(RecordBytes(first, a[0]), Journal(first + 1, a[1..]), Journal(middle, b));
  }

  lemma JournalNothing(first: nat)
    ensures Journalable(first, []) ==> Journal(first, []) == []
  {
  }

  lemma JournalTail(first: nat, es: seq<Extent>)
    requires Journalable(first, es) && es != []
    ensures 0 < first < TWO_64 && es[0].Valid() && Journalable(first + 1, es[1..])
    ensures Journal(first, es) == RecordBytes(first, es[0]) + Journal(first + 1, es[1..])
  {
  }

  lemma JournalOne(first: nat, e: Extent)
    requires 0 < first < TWO_64 && e.Valid()
    ensures Journal(first, [e]) == RecordBytes(first, e)
  {
    assert Journal(first + 1, [e][1..]) == [];
  }

  lemma {:induction false} JournalIsEncoding(first: nat, es: seq<Extent>)
    requires Journalable(first, es)
    ensures Writable(ExtentRecords(first, es)) && Encode(ExtentRecords(first, es)) == Journal(first, es)
    decreases |es|
  {
    hide Marshal;
    if es != [] {
      JournalIsEncoding(first + 1, es[1..]);
      var rs := ExtentRecords(first, es);
      assert rs[1..] == ExtentRecords(first + 1, es[1..]);
      assert Marshal(rs[0]) == Ok(RecordBytes(first, es[0]));
      assert forall i :: 0 < i < |rs| ==> rs[i] == rs[1..][i-1];
    }
  }

  lemma RecordReads(sequence: nat, e: Extent, tail: bytes)
    requires 0 < sequence < TWO_64 && e.Valid()
    ensures Unmarshal(RecordBytes(sequence, e) + tail) == Ok((ExtentRecord(sequence, e), RECORD_BYTES))
  {
    WrittenRecordReadsBackIff(ExtentRecord(sequence, e), tail);
  }

  lemma {:induction false} JournalIsWhole(first: nat, es: seq<Extent>)
    requires Journalable(first, es)
    ensures WholeRecords(Journal(first, es))
    decreases |es|
  {
    hide Unmarshal, RecordBytes;
    if es != [] {
      RecordReads(first, es[0], Journal(first + 1, es[1..]));
      JournalIsWhole(first + 1, es[1..]);
      assert Journal(first, es)[RECORD_BYTES..] == Journal(first + 1, es[1..]);
    }
  }

  lemma {:induction false} JournalBounds(first: nat, es: seq<Extent>, capacity: nat)
    requires Journalable(first, es)
    ensures JournalWithin(Journal(first, es), capacity) <==> Within(es, capacity)
    decreases |es|
  {
    hide Unmarshal, RecordBytes;
    if es != [] {
      RecordReads(first, es[0], Journal(first + 1, es[1..]));
      JournalBounds(first + 1, es[1..], capacity);
      assert Journal(first, es)[RECORD_BYTES..] == Journal(first + 1, es[1..]);
      assert es == [es[0]] + es[1..];
    }
  }

  /** Applying extents one after another. */
  function ApplyAll(s: seq<Extent>, es: seq<Extent>): Result<seq<Extent>, ApplyError>
    decreases |es|
  {
    if es == [] then Ok(s)
    else
      match Apply(s, es[0])
      case Err(e) => Err(e)
      case Ok(t) => ApplyAll(t, es[1..])
  }

  lemma {:induction false} ApplyAllConcat(s: seq<Extent>, a: seq<Extent>, b: seq<Extent>)
    ensures ApplyAll(s, a + b) == match ApplyAll(s, a) case Err(e) => Err(e) case Ok(t) => ApplyAll(t, b)
    decreases |a|
  {
    if a == [] {
      assert a + b == b;
    } else {
      assert (a + b)[1..] == a[1..] + b;
      if Apply(s, a[0]).Ok? {
        ApplyAllConcat(Apply(s, a[0]).value, a[1..], b);
      }
    }
  }

  lemma ApplyAllSnoc(s: seq<Extent>, a: seq<Extent>, e: Extent)
    requires ApplyAll(s, a).Ok?
    ensures ApplyAll(s, a + [e]) == Apply(ApplyAll(s, a).value, e)
  {
    ApplyAllConcat(s, a, [e]);
    var t := ApplyAll(s, a).value;
    if Apply(t, e).Ok? {
      assert ApplyAll(Apply(t, e).value, [e][1..]) == Apply(t, e);
    }
  }

  lemma AbsorbNothing(cp: Checkpoint)
    ensures Journalable(cp.last + 1, []) && Journal(cp.last + 1, []) == [] && Absorb(cp, []) == Ok(cp)
  {
  }

  lemma StepExtent(cp: Checkpoint, e: Extent)
    requires cp.last + 1 < TWO_64
    ensures Step(cp, ExtentRecord(cp.last + 1, e)) ==
            match Apply(cp.extents, e) case Err(x) => Err(Refused(x)) case Ok(s) => Ok(Checkpoint(cp.last + 1, s))
  {
    hide Apply;
  }

  lemma AbsorbFirst(cp: Checkpoint, es: seq<Extent>)
    requires Journalable(cp.last + 1, es) && es != []
    ensures Journalable(cp.last + 2, es[1..])
    ensures Absorb(cp, Journal(cp.last + 1, es)) ==
            match Apply(cp.extents, es[0])
            case Err(x) => Err(Refused(x))
            case Ok(s) => Absorb(Checkpoint(cp.last + 1, s), Journal(cp.last + 2, es[1..]))
  {
    hide Apply, Unmarshal, RecordBytes, Journal, Absorb, Step;
    var j, rest := Journal(cp.last + 1, es), Journal(cp.last + 2, es[1..]);
    JournalTail(cp.last + 1, es);
    RecordReads(cp.last + 1, es[0], rest);
    AbsorbOne(cp, j, ExtentRecord(cp.last + 1, es[0]), RECORD_BYTES);
    assert j[RECORD_BYTES..] == rest;
    StepExtent(cp, es[0]);
  }

  /** Absorbing the journal of some extents is applying them. */
  lemma {:induction false} AbsorbJournal(cp: Checkpoint, es: seq<Extent>)
    requires Journalable(cp.last + 1, es)
    ensures Absorb(cp, Journal(cp.last + 1, es)) ==
            match ApplyAll(cp.extents, es)
            case Err(e) => Err(Refused(e))
            case Ok(s) => Ok(Checkpoint(cp.last + |es|, s))
    decreases |es|
  {
    hide Apply, Journal, Absorb;
    if es == [] {
      AbsorbNothing(cp);
    } else {
      AbsorbFirst(cp, es);
      if Apply(cp.extents, es[0]).Ok? {
        AbsorbJournal(Checkpoint(cp.last + 1, Apply(cp.extents, es[0]).value), es[1..]);
      }
    }
  }

  /** Records that read back as they were written: an extent with every extent transition and with no other record. */
  predicate Plain(rs: seq<JournalRecord>) {
    forall i :: 0 <= i < |rs| ==>
      !rs[i].kind.Unnamed? && (rs[i].kind == ExtentStateChanged <==> rs[i].extent.Some?) && (rs[i].extent.Some? ==> rs[i].payload == [])
  }

  predicate Continues(last: nat, rs: seq<JournalRecord>) {
    forall i :: 0 <= i < |rs| ==> rs[i].sequence == last + 1 + i
  }

  function ExtentsOf(rs: seq<JournalRecord>): seq<Extent> {
    if rs == [] then [] else (if rs[0].extent.Some? then [rs[0].extent.value] else []) + ExtentsOf(rs[1..])
  }

  /** A journal of any records replays exactly when they continue the numbers of the checkpoint and the list accepts their
      extents one after another; records without an extent only count. */
  lemma {:induction false} RecordsReplayIff(cp: Checkpoint, rs: seq<JournalRecord>)
    requires Writable(rs) && Plain(rs)
    ensures Absorb(cp, Encode(rs)).Ok? <==> Continues(cp.last, rs) && ApplyAll(cp.extents, ExtentsOf(rs)).Ok?
    ensures Absorb(cp, Encode(rs)).Ok? ==>
              cp.last + |rs| < TWO_64 && Absorb(cp, Encode(rs)).value == Checkpoint(cp.last + |rs|, ApplyAll(cp.extents, ExtentsOf(rs)).value)
    decreases |rs|
  {
    hide Apply, Unmarshal, Absorb, Marshal, Step;
    if rs == [] {
      EncodedNothing(cp);
    } else {
      var r, rest := rs[0], Encode(rs[1..]);
      PlainReads(r, rest);
      var first := Marshal(r).value;
      assert (first + rest)[|first|..] == rest;
      AbsorbOne(cp, first + rest, r, |first|);
      StepPlain(cp, r);
      ContinuesNext(cp.last, rs);
      ApplyAllConcat(cp.extents, if r.extent.Some? then [r.extent.value] else [], ExtentsOf(rs[1..]));
      ApplyAllFew(cp.extents, r.extent);
      if Step(cp, r).Ok? {
        RecordsReplayIff(Step(cp, r).value, rs[1..]);
      }
    }
  }

  lemma EncodedNothing(cp: Checkpoint)
    ensures Absorb(cp, Encode([])) == Ok(cp)
  {
  }

  lemma PlainReads(r: JournalRecord, tail: bytes)
    requires Marshal(r).Ok? && Plain([r])
    ensures r.sequence != 0 && Unmarshal(Marshal(r).value + tail) == Ok((r, |Marshal(r).value|))
  {
    hide Unmarshal, Frame;
    assert [r][0] == r;
    WrittenRecordReadsBackIff(r, tail);
    MarshalledIsFrame(r);
  }

  lemma StepPlain(cp: Checkpoint, r: JournalRecord)
    requires r.sequence != 0 && (r.kind == ExtentStateChanged <==> r.extent.Some?)
    ensures Step(cp, r).Ok? <==> r.sequence == cp.last + 1 && (r.extent.Some? ==> Apply(cp.extents, r.extent.value).Ok?)
    ensures Step(cp, r).Ok? ==>
              Step(cp, r).value == Checkpoint(r.sequence, if r.extent.Some? then Apply(cp.extents, r.extent.value).value else cp.extents)
  {
    hide Apply;
  }

  lemma ContinuesNext(last: nat, rs: seq<JournalRecord>)
    requires rs != []
    ensures Continues(last, rs) <==> rs[0].sequence == last + 1 && Continues(last + 1, rs[1..])
  {
    if rs[0].sequence == last + 1 && Continues(last + 1, rs[1..]) {
      forall i | 0 <= i < |rs| ensures rs[i].sequence == last + 1 + i {
        if i > 0 {
          assert rs[1..][i-1] == rs[i];
        }
      }
    }
  }

  lemma ApplyAllFew(s: seq<Extent>, e: Option<Extent>)
    ensures ApplyAll(s, if e.Some? then [e.value] else []) == if e.Some? then Apply(s, e.value) else Ok(s)
  {
    hide Apply;
    if e.Some? && Apply(s, e.value).Ok? {
      assert [e.value][1..] == [];
      assert ApplyAll(Apply(s, e.value).value, []) == Ok(Apply(s, e.value).value);
    }
  }

  /** With one, any verified sector can be demoted: two transitions that every list accepts leave it no more than read. */
  lemma VerifiedCanBeDemoted(cp: Checkpoint, capacity: nat, lba: nat)
    requires Sound(cp.extents, capacity) && lba < capacity && cp.last + 2 < TWO_64
    requires At(cp.extents, lba).Some? && At(cp.extents, lba).value.state == VERIFIED
    ensures var m := At(cp.extents, lba).value;
            var es := [Extent(lba, 1, m.(state := CHECKSUM_ERROR, confidence := NO_CONFIDENCE)),
                       Extent(lba, 1, m.(state := READ_UNVERIFIED, confidence := SINGLE_READ))];
            && Journalable(cp.last + 1, es) && Absorb(cp, Journal(cp.last + 1, es)).Ok?
            && At(Absorb(cp, Journal(cp.last + 1, es)).value.extents, lba) == Some(es[1].mark)
  {
    hide Apply, Absorb, Journal;
    var m := At(cp.extents, lba).value;
    var e := Extent(lba, 1, m.(state := CHECKSUM_ERROR, confidence := NO_CONFIDENCE));
    var u := Extent(lba, 1, m.(state := READ_UNVERIFIED, confidence := SINGLE_READ));
    MarkValid(cp.extents, lba);
    ApplyRefinesOverride(cp.extents, e, capacity);
    var t := Apply(cp.extents, e).value;
    assert At(t, lba) == Some(e.mark);
    ApplyRefinesOverride(t, u, capacity);
    ApplyAllSnoc(cp.extents, [e], u);
    assert [e] + [u] == [e, u] && [e][1..] == [];
    AbsorbJournal(cp, [e, u]);
    assert At(Apply(t, u).value, lba) == Some(u.mark);
  }

  /** A journal of extents cut anywhere replays as one of its whole-record prefixes. */
  lemma CutJournal(first: nat, es: seq<Extent>, k: nat) returns (m: nat)
    requires Journalable(first, es) && k <= |Journal(first, es)|
    ensures m <= |es| && Journalable(first, es[..m])
    ensures 57 * m <= k && (m < |es| ==> k < 57 * (m + 1))
    ensures forall cp :: Absorb(cp, Journal(first, es)[..k]) == Absorb(cp, Journal(first, es[..m]))
  {
    hide Encode, Journal, Absorb;
    JournalIsEncoding(first, es);
    var rs := ExtentRecords(first, es);
    m := WholeCount(rs, k);
    EncodedPrefix(first, es, m);
    WholeCountIsLongest(rs, k);
    if m < |es| {
      EncodedPrefix(first, es, m + 1);
    }
    forall cp ensures Absorb(cp, Journal(first, es)[..k]) == Absorb(cp, Journal(first, es[..m])) {
      TornTailAbsorbs(cp, rs, k);
    }
  }

  lemma EncodedPrefix(first: nat, es: seq<Extent>, m: nat)
    requires Journalable(first, es) && m <= |es|
    ensures Journalable(first, es[..m])
    ensures var rs := ExtentRecords(first, es)[..m];
            Writable(rs) && Encode(rs) == Journal(first, es[..m]) && |Encode(rs)| == 57 * m
  {
    hide Encode, Journal;
    JournalIsEncoding(first, es[..m]);
    assert ExtentRecords(first, es)[..m] == ExtentRecords(first, es[..m]);
  }
}
