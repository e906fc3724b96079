/** What may be believed of a map file found after a crash: a data claim made in the interrupted session is backed by
    the image found with it (internal/platform/recovery_persistence.go:103-130). */
module CrashRecovery {
  import opened Prelude
  import opened Transitions
  import opened Extents
  import opened Coalescing
  import opened Applying
  import opened Replaying
  import opened TornTails
  import opened Media
  import opened RecoveryMap
  import opened Sessions
  import opened WriteAhead
  import opened Persistence
  import CheckpointCodec

  lemma ApplyKeepsOrLoses(s: seq<Extent>, c: Extent, lba: nat)
    requires Apply(s, c).Ok? && At(Apply(s, c).value, lba).Some?
    ensures At(Apply(s, c).value, lba) == if c.Covers(lba) then Some(c.mark) else At(s, lba)
  {
    hide Coalesce, Spliced;
    ApplyOkPermits(s, c);
    SplicedView(s, c, lba);
    CoalesceKeepsOrLoses(Spliced(s, c), lba);
    AppliedIsCoalesced(s, c);
  }

  lemma AppliedIsCoalesced(s: seq<Extent>, c: Extent)
    requires Apply(s, c).Ok?
    ensures Apply(s, c).value == Coalesce(Spliced(s, c))
  {
  }

  /** A sector's mark after some transitions is its mark before them or that of a transition that covers it. */
  lemma {:induction false} MarkHasOrigin(s: seq<Extent>, es: seq<Extent>, lba: nat) returns (i: nat)
    requires ApplyAll(s, es).Ok? && At(ApplyAll(s, es).value, lba).Some?
    ensures i <= |es|
    ensures i == |es| ==> At(ApplyAll(s, es).value, lba) == At(s, lba)
    ensures i < |es| ==> es[i].Covers(lba) && At(ApplyAll(s, es).value, lba) == Some(es[i].mark)
    decreases |es|
  {
    hide Apply;
    if es == [] {
      i := 0;
    } else {
      var p, e := es[..|es|-1], es[|es|-1];
      assert es == p + [e];
      ApplyAllConcat(s, p, [e]);
      var t := ApplyAll(s, p).value;
      ApplyAllSnoc(s, p, e);
      ApplyKeepsOrLoses(t, e, lba);
      if e.Covers(lba) {
        i := |es| - 1;
      } else {
        i := MarkHasOrigin(s, p, lba);
        if i == |p| {
          i := |es|;
        }
      }
    }
  }

  lemma NewClaimHasOrigin(s: seq<Extent>, es: seq<Extent>, lba: nat) returns (i: nat)
    requires ApplyAll(s, es).Ok? && Claims(At(ApplyAll(s, es).value, lba)) && !Claims(SettledView(At(s, lba)))
    ensures i < |es| && es[i].Covers(lba) && At(ApplyAll(s, es).value, lba) == Some(es[i].mark)
  {
    hide ApplyAll;
    i := MarkHasOrigin(s, es, lba);
  }

  lemma SettlingKeepsClaims(m: Mark)
    ensures SettledMark(m).ClaimsData() == m.ClaimsData()
    ensures m.ClaimsData() ==> SettledMark(m) == m
  {
  }

  /** The state a journal leaves before it is settled. */
  ghost predicate OpensFrom(body: bytes, a: Checkpoint) {
    && CheckpointLength(body).Ok?
    && CheckpointCodec.Unmarshal(body[..CheckpointLength(body).value], CheckpointCodec.DEFAULT_LIMITS).Ok?
    && Absorb(CheckpointOf(body), JournalOf(body)) == Ok(a)
  }

  /** The unsettled state behind an opened one. */
  lemma OpenedFrom(header: Header, start: bytes, g: Geometry) returns (a: Checkpoint)
    requires StateOf(header, start, g).Ok?
    ensures OpensFrom(start, a)
    ensures StateOf(header, start, g) == Ok(a.(extents := Settled(a.extents)))
  {
    hide Absorb, AbsorbStream, CheckpointCodec.Unmarshal;
    StreamRefinesBuffer(CheckpointOf(start), JournalOf(start));
    a := Absorb(CheckpointOf(start), JournalOf(start)).value;
  }

  /** Reading a map cut inside a session's journal is applying the whole records to the unsettled state before. */
  lemma CutReadsFrom(header: Header, start: bytes, g: Geometry, first: nat, es: seq<Extent>, k: nat, body: bytes)
    returns (a: Checkpoint, b: Checkpoint, m: nat)
    requires StateOf(header, start, g).Ok? && first == StateOf(header, start, g).value.last + 1
    requires WholeRecords(JournalOf(start)) && Journalable(first, es) && k <= |Journal(first, es)|
    requires body == start + Journal(first, es)[..k] && StateOf(header, body, g).Ok?
    ensures OpensFrom(start, a) && StateOf(header, start, g) == Ok(a.(extents := Settled(a.extents)))
    ensures OpensFrom(body, b) && StateOf(header, body, g) == Ok(b.(extents := Settled(b.extents)))
    ensures m <= |es| && 57 * m <= k && ApplyAll(a.extents, es[..m]).Ok?
    ensures b.extents == ApplyAll(a.extents, es[..m]).value
  {
    hide Absorb, ApplyAll, Journal, CheckpointLength, WholeRecords, StateOf, Settled, Journalable, CheckpointOf, JournalOf;
    a := OpenedFrom(header, start, g);
    var more := Journal(first, es)[..k];
    AppendedParts(start, more);
    b := OpenedFrom(header, body, g);
    AbsorbConcat(CheckpointOf(start), JournalOf(start), more);
    m := CutJournal(first, es, k);
    AbsorbWhole(a, first, es[..m]);
  }

  lemma AppendedParts(start: bytes, more: bytes)
    requires CheckpointLength(start).Ok?
    requires CheckpointCodec.Unmarshal(start[..CheckpointLength(start).value], CheckpointCodec.DEFAULT_LIMITS).Ok?
    ensures CheckpointLength(start + more).Ok?
    ensures CheckpointCodec.Unmarshal((start + more)[..CheckpointLength(start + more).value], CheckpointCodec.DEFAULT_LIMITS).Ok?
    ensures CheckpointOf(start + more) == CheckpointOf(start) && JournalOf(start + more) == JournalOf(start) + more
  {
    hide CheckpointCodec.Unmarshal, CheckpointLength;
    AppendedMap(start, more);
  }

  lemma AbsorbWhole(a: Checkpoint, first: nat, es: seq<Extent>)
    requires first == a.last + 1 && Journalable(first, es) && Absorb(a, Journal(first, es)).Ok?
    ensures ApplyAll(a.extents, es).Ok? && Absorb(a, Journal(first, es)).value.extents == ApplyAll(a.extents, es).value
  {
    hide Absorb, ApplyAll, Journal;
    AbsorbJournal(a, es);
  }

  /** A transition stands for data the image holds, or was handed over without data. */
  ghost predicate Vouched(l: Ledger, e: Extent, source: Option<nat>, image: Contents) {
    match source
    case None => e in l.marks
    case Some(j) => j < |l.recovered| && l.recovered[j] == e && j < |l.calls| && Held(image, l.calls, j)
  }

  /** The write-ahead guarantee. At any crash point of a session, from any map contents the crash may leave that still
      read as a map, a data claim the session did not begin with is the mark of one of the session's
      transitions; either that transition was handed over without data, or it is the transition of a call whose data
      any image contents the crash may leave hold. */
  lemma ClaimsAreBacked(d: Disk, start: bytes, header: Header, g: Geometry, l: Ledger, body: bytes, image: Contents, lba: nat)
    returns (e: Extent, c: Option<nat>)
    requires StateOf(header, start, g).Ok? && WholeRecords(JournalOf(start))
    requires CrashSafe(d, start, StateOf(header, start, g).value.last + 1, l)
    requires d.map_.MayCrashTo(body) && d.image.MayCrashTo(image)
    requires StateOf(header, body, g).Ok?
    requires Claims(At(StateOf(header, body, g).value.extents, lba))
    requires !Claims(At(StateOf(header, start, g).value.extents, lba))
    ensures e.Covers(lba) && At(StateOf(header, body, g).value.extents, lba) == Some(e.mark)
    ensures Vouched(l, e, c, image)
  {
    hide StateOf, Safe, Vouched, Claims;
    var first := StateOf(header, start, g).value.last + 1;
    var es: seq<Extent>, sources: seq<Option<nat>> :| Safe(d, start, first, es, sources, l);
    var i := SafeClaimIsVouched(d, start, header, g, first, es, sources, l, body, image, lba);
    e, c := es[i], sources[i];
  }

  lemma SafeClaimIsVouched(d: Disk, start: bytes, header: Header, g: Geometry, first: nat, es: seq<Extent>, sources: seq<Option<nat>>,
                           l: Ledger, body: bytes, image: Contents, lba: nat) returns (i: nat)
    requires StateOf(header, start, g).Ok? && first == StateOf(header, start, g).value.last + 1 && WholeRecords(JournalOf(start))
    requires Safe(d, start, first, es, sources, l)
    requires d.map_.MayCrashTo(body) && d.image.MayCrashTo(image) && StateOf(header, body, g).Ok?
    requires Claims(At(StateOf(header, body, g).value.extents, lba)) && !Claims(At(StateOf(header, start, g).value.extents, lba))
    ensures i < |es| && |sources| == |es|
    ensures es[i].Covers(lba) && At(StateOf(header, body, g).value.extents, lba) == Some(es[i].mark)
    ensures Vouched(l, es[i], sources[i], image)
  {
    hide StateOf, Journal, Safe, ApplyAll, Settled, Journalable, Claims, Vouched, WholeRecords;
    var k := SafeBody(d, start, first, es, sources, l, body);
    var a, b, m := CutReadsFrom(header, start, g, first, es, k, body);
    i := SettledClaimHasOrigin(a.extents, es[..m], lba);
    SafeSource(d, start, first, es, sources, l, body, image, i);
  }

  /** A data claim found after settling, and not before the transitions, is one of the transitions'. */
  lemma SettledClaimHasOrigin(s: seq<Extent>, es: seq<Extent>, lba: nat) returns (i: nat)
    requires ApplyAll(s, es).Ok?
    requires Claims(At(Settled(ApplyAll(s, es).value), lba)) && !Claims(At(Settled(s), lba))
    ensures i < |es| && es[i].Covers(lba) && At(Settled(ApplyAll(s, es).value), lba) == Some(es[i].mark)
  {
    hide ApplyAll, Settled;
    var t := ApplyAll(s, es).value;
    AtSettled(t, lba);
    AtSettled(s, lba);
    SettlingKeepsClaims(At(t, lba).value);
    i := NewClaimHasOrigin(s, es, lba);
  }

  lemma SafeBody(d: Disk, start: bytes, first: nat, es: seq<Extent>, sources: seq<Option<nat>>, l: Ledger, body: bytes) returns (k: nat)
    requires Safe(d, start, first, es, sources, l) && d.map_.MayCrashTo(body)
    ensures |sources| == |es| && Journalable(first, es) && k <= |Journal(first, es)|
    ensures k == |body| - |start| && body == start + Journal(first, es)[..k]
  {
    hide Journal, Backed, Accounted;
    k := |body| - |start|;
  }

  lemma SafeSource(d: Disk, start: bytes, first: nat, es: seq<Extent>, sources: seq<Option<nat>>, l: Ledger, body: bytes, image: Contents, i: nat)
    requires Safe(d, start, first, es, sources, l) && d.map_.MayCrashTo(body) && d.image.MayCrashTo(image)
    requires i < |es| && |start| + 57 * (i + 1) <= |body|
    ensures Vouched(l, es[i], sources[i], image)
  {
    hide Journal, Backed, Held;
    if sources[i].Some? {
      BackedSurvivesCrash(d.image, l.calls, sources[i].value, image);
    }
  }
}
