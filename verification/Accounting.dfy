/** The sector counts a run reports (internal/platform/recovery_progress.go) against the sector view. */
module Accounting {
  import opened Prelude
  import opened Transitions
  import opened Extents
  import opened Applying
  import opened Replaying
  import opened Runs
  import opened Passes

  datatype Class = Scanned | Recovered | Deferred | Unreadable

  /** The classes summarizeRecoveryExtentStates tells apart; a skipped sector is scanned and nothing else. */
  predicate InClass(m: Mark, c: Class) {
    match c
    case Scanned => true
    case Recovered => m.ClaimsData()
    case Deferred => m.state == UNKNOWN || m.state == QUEUED || m.state == IO_ERROR
    case Unreadable => m.state == MISSING
  }

  function Tally(s: seq<Extent>, c: Class): nat {
    if s == [] then 0
    else Tally(s[..|s|-1], c) + if InClass(s[|s|-1].mark, c) then s[|s|-1].sectors else 0
  }

  datatype Summary = Summary(scanned: uint64, recovered: uint64, deferred: uint64, unreadable: uint64)

  /** The tallies in 64 bits. */
  function SummaryOf(s: seq<Extent>): Summary {
    Summary(Wrap64(Tally(s, Scanned)), Wrap64(Tally(s, Recovered)), Wrap64(Tally(s, Deferred)), Wrap64(Tally(s, Unreadable)))
  }

  lemma WrapAdds(a: nat, b: nat)
    ensures Wrap64(Wrap64(a) + b) == Wrap64(a + b)
  {
  }

  /** summarizeRecoveryExtentStates (recovery_progress.go:19), with 64-bit sums. */
  method SummarizeExtentStates(extents: seq<Extent>) returns (r: Summary)
    ensures r == SummaryOf(extents)
  {
    hide Wrap64;
    var scanned, recovered, deferred, unreadable := Wrap64(0), Wrap64(0), Wrap64(0), Wrap64(0);
    for i := 0 to |extents|
      invariant scanned == Wrap64(Tally(extents[..i], Scanned)) && recovered == Wrap64(Tally(extents[..i], Recovered))
      invariant deferred == Wrap64(Tally(extents[..i], Deferred)) && unreadable == Wrap64(Tally(extents[..i], Unreadable))
    {
      assert extents[..i+1][..i] == extents[..i];
      var e := extents[i];
      WrapAdds(Tally(extents[..i], Scanned), e.sectors);
      WrapAdds(Tally(extents[..i], Recovered), e.sectors);
      WrapAdds(Tally(extents[..i], Deferred), e.sectors);
      WrapAdds(Tally(extents[..i], Unreadable), e.sectors);
      scanned := Wrap64(scanned + e.sectors);
      if e.mark.ClaimsData() {
        recovered := Wrap64(recovered + e.sectors);
        continue;
      }
      if e.mark.state == UNKNOWN || e.mark.state == QUEUED || e.mark.state == IO_ERROR {
        deferred := Wrap64(deferred + e.sectors);
      } else if e.mark.state == MISSING {
        unreadable := Wrap64(unreadable + e.sectors);
      }
    }
    assert extents[..|extents|] == extents;
    return Summary(scanned, recovered, deferred, unreadable);
  }

  // ----- sums of extents are counts of sectors

  predicate SectorIn(m: Option<Mark>, c: Class) {
    m.Some? && InClass(m.value, c)
  }

  /** How many of the sectors below `end` are in a class. */
  function SectorsIn(s: seq<Extent>, c: Class, end: nat): (n: nat)
    ensures n <= end
  {
    if end == 0 then 0 else SectorsIn(s, c, end - 1) + if SectorIn(At(s, end - 1), c) then 1 else 0
  }

  lemma {:induction false} SectorsOfStretch(s: seq<Extent>, c: Class, start: nat, end: nat, m: Option<Mark>)
    requires start <= end && forall x: nat :: start <= x < end ==> At(s, x) == m
    ensures SectorsIn(s, c, end) == SectorsIn(s, c, start) + if SectorIn(m, c) then end - start else 0
  {
    if start < end {
      SectorsOfStretch(s, c, start, end - 1, m);
    }
  }

  lemma {:induction false} SectorsOfSame(s: seq<Extent>, t: seq<Extent>, c: Class, end: nat)
    requires forall x: nat :: x < end ==> At(s, x) == At(t, x)
    ensures SectorsIn(s, c, end) == SectorsIn(t, c, end)
  {
    if end > 0 {
      SectorsOfSame(s, t, c, end - 1);
    }
  }

  lemma LastExtentView(p: seq<Extent>, e: Extent)
    requires Within(p, e.start)
    ensures forall x: nat :: At(p + [e], x) == if x < e.start then At(p, x) else if e.Covers(x) then Some(e.mark) else None
  {
    forall x: nat ensures At(p + [e], x) == if x < e.start then At(p, x) else if e.Covers(x) then Some(e.mark) else None {
      AtConcat(p, [e], x);
      AtOne(e, x);
      AtNone(p, x);
    }
  }

  /** In a valid list the sectors of the extents of a class are the sectors of that class. */
  lemma {:induction false} TallyCountsSectors(s: seq<Extent>, c: Class, end: nat)
    requires ValidSet(s) && Within(s, end)
    ensures Tally(s, c) == SectorsIn(s, c, end)
  {
    if s == [] {
      SectorsOfStretch(s, c, 0, end, None);
    } else {
      var p, e := s[..|s|-1], s[|s|-1];
      assert s == p + [e];
      LastExtentParts(p, e, end);
      TallyCountsSectors(p, c, e.start);
      TallyStep(p, e, c, end);
    }
  }

  lemma LastExtentParts(p: seq<Extent>, e: Extent, end: nat)
    requires ValidSet(p + [e]) && Within(p + [e], end)
    ensures ValidSet(p) && Within(p, e.start) && e.End() <= end
  {
    var s := p + [e];
    assert s[|p|] == e && s[..|p|] == p;
    PrefixValid(s, |p|);
    ValidSetIsSeparated(s);
    forall i | 0 <= i < |p| ensures p[i].End() <= e.start {
      assert s[i] == p[i];
    }
  }

  lemma TallyStep(p: seq<Extent>, e: Extent, c: Class, end: nat)
    requires Within(p, e.start) && e.End() <= end && Tally(p, c) == SectorsIn(p, c, e.start)
    ensures Tally(p + [e], c) == SectorsIn(p + [e], c, end)
  {
    hide Within, At, SectorsIn;
    var s := p + [e];
    assert s[..|s|-1] == p;
    LastExtentView(p, e);
    SectorsOfSame(s, p, c, e.start);
    SectorsOfStretch(s, c, e.start, e.End(), Some(e.mark));
    SectorsOfStretch(s, c, e.End(), end, None);
  }

  /** Every covered sector without the mark `skipped` is counted in exactly one of the three classes. */
  lemma {:induction false} ClassesPartition(s: seq<Extent>, end: nat)
    requires ValidSet(s) && Covered(s, end)
    requires forall x: nat :: x < end ==> At(s, x).Some? && At(s, x).value.state != SKIPPED
    ensures SectorsIn(s, Scanned, end) == end
    ensures SectorsIn(s, Recovered, end) + SectorsIn(s, Deferred, end) + SectorsIn(s, Unreadable, end) == end
  {
    if end > 0 {
      ClassesPartition(s, end - 1);
      MarkValid(s, end - 1);
    }
  }

  // ----- the classes, state by state

  /** How many of the sectors below `end` are in a state. */
  function InState(s: seq<Extent>, state: uint8, end: nat): (n: nat)
    ensures n <= end
  {
    if end == 0 then 0
    else InState(s, state, end - 1) + if At(s, end - 1).Some? && At(s, end - 1).value.state == state then 1 else 0
  }

  function RetryableSectors(s: seq<Extent>, end: nat): nat {
    InState(s, UNKNOWN, end) + InState(s, QUEUED, end) + InState(s, IO_ERROR, end) + InState(s, MISSING, end)
  }

  lemma {:induction false} ClassesAreStates(s: seq<Extent>, end: nat)
    ensures SectorsIn(s, Recovered, end) == InState(s, READ_UNVERIFIED, end) + InState(s, VERIFIED, end) + InState(s, CHECKSUM_ERROR, end)
                                            + InState(s, CONFLICTING, end) + InState(s, RECONSTRUCTED, end)
    ensures SectorsIn(s, Deferred, end) == InState(s, UNKNOWN, end) + InState(s, QUEUED, end) + InState(s, IO_ERROR, end)
    ensures SectorsIn(s, Unreadable, end) == InState(s, MISSING, end)
  {
    if end > 0 {
      ClassesAreStates(s, end - 1);
    }
  }

  /** The summary of a sound map: recovered are the sectors in a state that claims data, deferred those still to be read,
      and unreadable exactly those given up. */
  lemma SummaryCountsStates(s: seq<Extent>, capacity: nat)
    requires Sound(s, capacity)
    ensures var r := SummaryOf(s);
            && r.recovered == InState(s, READ_UNVERIFIED, capacity) + InState(s, VERIFIED, capacity) + InState(s, CHECKSUM_ERROR, capacity)
                              + InState(s, CONFLICTING, capacity) + InState(s, RECONSTRUCTED, capacity)
            && r.deferred == InState(s, UNKNOWN, capacity) + InState(s, QUEUED, capacity) + InState(s, IO_ERROR, capacity)
            && r.unreadable == InState(s, MISSING, capacity)
  {
    hide Tally, SectorsIn, InState;
    ClassesAreStates(s, capacity);
    TallyCountsSectors(s, Recovered, capacity);
    TallyCountsSectors(s, Deferred, capacity);
    TallyCountsSectors(s, Unreadable, capacity);
    SumsFit(s, Recovered, capacity);
    SumsFit(s, Deferred, capacity);
    SumsFit(s, Unreadable, capacity);
  }

  lemma {:induction false} NoneInState(s: seq<Extent>, state: uint8, end: nat)
    requires forall x: nat :: x < end && At(s, x).Some? ==> At(s, x).value.state != state
    ensures InState(s, state, end) == 0
  {
    if end > 0 {
      NoneInState(s, state, end - 1);
    }
  }

  lemma {:induction false} FinalizedStates(s: seq<Extent>, t: seq<Extent>, end: nat)
    requires forall x: nat :: At(t, x) == Finalized(At(s, x))
    ensures InState(t, MISSING, end) == RetryableSectors(s, end)
    ensures InState(t, UNKNOWN, end) == 0 && InState(t, QUEUED, end) == 0 && InState(t, IO_ERROR, end) == 0
  {
    if end > 0 {
      FinalizedStates(s, t, end - 1);
    }
  }

  /** Finalization reports as unreadable what it gave up and what was missing before, and leaves nothing deferred. */
  lemma FinalizedSummary(s: seq<Extent>, t: seq<Extent>, capacity: nat)
    requires Sound(t, capacity) && forall x: nat :: At(t, x) == Finalized(At(s, x))
    ensures SummaryOf(t).unreadable == RetryableSectors(s, capacity) && SummaryOf(t).deferred == 0
  {
    hide InState, RetryableSectors, At;
    FinalizedStates(s, t, capacity);
    SummaryCountsStates(t, capacity);
  }

  ghost predicate NoneSkipped(s: seq<Extent>) {
    forall x: nat :: At(s, x).Some? ==> At(s, x).value.state != SKIPPED
  }

  /** Completion accounting: a map that covers the medium and skips nothing is summed up exactly. */
  lemma CompleteMapAccounted(s: seq<Extent>, capacity: nat)
    requires Sound(s, capacity) && Covered(s, capacity) && NoneSkipped(s)
    ensures Tally(s, Scanned) == capacity
    ensures Tally(s, Recovered) + Tally(s, Deferred) + Tally(s, Unreadable) == capacity
  {
    hide ValidSet, Within;
    TallyCountsSectors(s, Scanned, capacity);
    TallyCountsSectors(s, Recovered, capacity);
    TallyCountsSectors(s, Deferred, capacity);
    TallyCountsSectors(s, Unreadable, capacity);
    ClassesPartition(s, capacity);
  }

  /** Sums over a sound map do not wrap. */
  lemma SumsFit(s: seq<Extent>, c: Class, capacity: nat)
    requires Sound(s, capacity)
    ensures Wrap64(Tally(s, c)) == Tally(s, c)
  {
    TallyCountsSectors(s, c, capacity);
  }

  lemma {:induction false} SomeSectorIn(s: seq<Extent>, c: Class, end: nat) returns (x: nat)
    requires SectorsIn(s, c, end) > 0
    ensures x < end && SectorIn(At(s, x), c)
  {
    if SectorIn(At(s, end - 1), c) {
      x := end - 1;
    } else {
      x := SomeSectorIn(s, c, end - 1);
    }
  }

  lemma {:induction false} NoneInClass(s: seq<Extent>, c: Class, end: nat, x: nat)
    requires SectorsIn(s, c, end) == 0 && x < end
    ensures !SectorIn(At(s, x), c)
  {
    if x < end - 1 {
      NoneInClass(s, c, end - 1, x);
    }
  }

  ghost predicate NoneIn(s: seq<Extent>, c: Class) {
    forall x: nat :: !SectorIn(At(s, x), c)
  }

  /** A tally of zero means no sector of the class. */
  lemma ZeroTally(s: seq<Extent>, c: Class, capacity: nat)
    requires Sound(s, capacity)
    ensures Tally(s, c) == 0 <==> NoneIn(s, c)
  {
    TallyCountsSectors(s, c, capacity);
    if Tally(s, c) == 0 {
      forall x: nat ensures !SectorIn(At(s, x), c) {
        if At(s, x).Some? {
          WithinView(s, capacity, x);
          NoneInClass(s, c, capacity, x);
        }
      }
    } else {
      var x := SomeSectorIn(s, c, capacity);
      assert SectorIn(At(s, x), c);
    }
  }

  /** unresolvedSectorCount (recovery_progress.go:40). */
  method UnresolvedSectorCount(extents: seq<Extent>) returns (n: uint64)
    ensures n == Wrap64(Tally(extents, Deferred) + Tally(extents, Unreadable))
  {
    hide Wrap64;
    var r := SummarizeExtentStates(extents);
    WrapAdds(Tally(extents, Deferred), r.unreadable);
    WrapAdds(Tally(extents, Unreadable), Tally(extents, Deferred));
    n := Wrap64(r.deferred + r.unreadable);
  }

  ghost predicate NoneRetryable(s: seq<Extent>) {
    forall x: nat :: !Retryable(At(s, x))
  }

  lemma RetryableClasses(s: seq<Extent>)
    ensures NoneRetryable(s) <==> NoneIn(s, Deferred) && NoneIn(s, Unreadable)
  {
    if NoneRetryable(s) {
      forall x: nat ensures !SectorIn(At(s, x), Deferred) && !SectorIn(At(s, x), Unreadable) {
        assert !Retryable(At(s, x));
      }
    }
    if NoneIn(s, Deferred) && NoneIn(s, Unreadable) {
      forall x: nat ensures !Retryable(At(s, x)) {
        assert !SectorIn(At(s, x), Deferred) && !SectorIn(At(s, x), Unreadable);
      }
    }
  }

  /** On a sound map the count is zero exactly when nothing is retryable. */
  lemma UnresolvedMeansRetryable(s: seq<Extent>, capacity: nat)
    requires Sound(s, capacity)
    ensures Wrap64(Tally(s, Deferred) + Tally(s, Unreadable)) == 0 <==> NoneRetryable(s)
  {
    hide ValidSet, Within;
    ZeroTally(s, Deferred, capacity);
    ZeroTally(s, Unreadable, capacity);
    TallyCountsSectors(s, Deferred, capacity);
    TallyCountsSectors(s, Unreadable, capacity);
    SumFits(Tally(s, Deferred), Tally(s, Unreadable), capacity);
    RetryableClasses(s);
  }

  lemma SumFits(a: nat, b: nat, capacity: nat)
    requires a <= capacity && b <= capacity && capacity < TWO_32
    ensures Wrap64(a + b) == a + b
  {
  }
}
