/** The passes over deferred ranges (internal/platform/recovery_trim_pass.go, recovery_adaptive_pass.go,
    recovery_finalize.go). Each works from the list of retryable extents taken when it begins, while its own marks
    split and join the extents of the map under it. */
module RetryPasses {
  import opened Prelude
  import opened Transitions
  import opened Extents
  import opened Applying
  import opened Replaying
  import opened Media
  import opened RecoveryMap
  import opened Persistence
  import opened Runs
  import opened Devices
  import opened Passes

  // ----- the ranges a pass works on

  /** retryableExtents (recovery_retry.go:31). */
  method SelectRetryable(extents: seq<Extent>) returns (result: seq<Extent>)
    ensures result == RetryableExtents(extents)
  {
    result := [];
    for i := 0 to |extents|
      invariant result == RetryableExtents(extents[..i])
    {
      assert extents[..i+1][..i] == extents[..i];
      if IsRetryableState(extents[i].mark.state) {
        result := result + [extents[i]];
      }
    }
    assert extents[..|extents|] == extents;
  }

  /** The selection keeps the order and misses no retryable sector. */
  lemma {:induction false} SelectionSeparated(s: seq<Extent>)
    requires ValidSet(s)
    ensures Separated(RetryableExtents(s))
  {
    if s != [] {
      hide ValidSet, Separated, RetryableExtents;
      var t, e := s[..|s|-1], s[|s|-1];
      assert s == t + [e];
      PrefixValid(s, |s|-1);
      SelectionSnoc(t, e);
      SelectionSeparated(t);
      ValidSetIsSeparated(s);
      SelectionBefore(t, RetryableExtents(t), e);
      SeparatedSnoc(RetryableExtents(t), e);
    }
  }

  lemma SelectionSnoc(t: seq<Extent>, e: Extent)
    ensures RetryableExtents(t + [e]) == RetryableExtents(t) + if IsRetryableState(e.mark.state) then [e] else []
  {
    assert (t + [e])[..|t|] == t;
  }

  lemma SelectionBefore(t: seq<Extent>, r: seq<Extent>, e: Extent)
    requires Separated(t + [e]) && forall x :: x in r ==> x in t
    ensures forall i :: 0 <= i < |r| ==> r[i].End() <= e.start
  {
    forall i | 0 <= i < |r| ensures r[i].End() <= e.start {
      assert r[i] in t;
      var k :| 0 <= k < |t| && t[k] == r[i];
      assert (t + [e])[k] == t[k] && (t + [e])[|t|] == e;
    }
  }

  lemma SeparatedSnoc(r: seq<Extent>, e: Extent)
    requires Separated(r) && forall i :: 0 <= i < |r| ==> r[i].End() <= e.start
    ensures Separated(r + [e])
  {
  }

  lemma SelectedSector(s: seq<Extent>, x: nat) returns (k: nat)
    requires ValidSet(s) && Retryable(At(s, x))
    ensures k < |RetryableExtents(s)| && RetryableExtents(s)[k].Covers(x)
  {
    var i := AtFound(s, x);
    var e := s[i];
    assert e in RetryableExtents(s);
    k :| 0 <= k < |RetryableExtents(s)| && RetryableExtents(s)[k] == e;
  }

  lemma SelectedMark(s: seq<Extent>, k: nat, x: nat)
    requires ValidSet(s) && k < |RetryableExtents(s)| && RetryableExtents(s)[k].Covers(x)
    ensures At(s, x) == Some(RetryableExtents(s)[k].mark) && Retryable(At(s, x))
  {
    var e := RetryableExtents(s)[k];
    assert e in s;
    var i: nat :| i < |s| && s[i] == e;
    AtIndex(s, i, x);
  }

  /** In a canonical list the sector behind an extent is marked differently. */
  lemma EndsThere(s: seq<Extent>, e: Extent)
    requires Canonical(s) && e in s
    ensures At(s, e.End()) != Some(e.mark)
  {
    var i: nat :| i < |s| && s[i] == e;
    if At(s, e.End()) == Some(e.mark) {
      forall x: nat | e.start <= x < e.End() + 1 ensures At(s, x) == Some(e.mark) {
        if x < e.End() {
          AtIndex(s, i, x);
        }
      }
      RunStaysInExtent(s, i, e.End() + 1);
      assert false;
    }
  }

  // ----- what a pass has attended to

  /** A sector that could be retried is recovered, or has one attempt more at least. */
  predicate SectorAttended(m: Option<Mark>, m': Option<Mark>, attemptLimit: nat) {
    Retryable(m) && Attempts(m) < attemptLimit ==> Claims(m') || Attempts(m) < Attempts(m')
  }

  ghost predicate RangeAttended(s: seq<Extent>, t: seq<Extent>, start: nat, end: nat, attemptLimit: nat) {
    forall x: nat :: start <= x < end ==> SectorAttended(At(s, x), At(t, x), attemptLimit)
  }

  ghost predicate RangesAttended(s: seq<Extent>, t: seq<Extent>, ranges: seq<Extent>, n: nat, attemptLimit: nat)
    requires n <= |ranges|
  {
    forall k :: 0 <= k < n ==> RangeAttended(s, t, ranges[k].start, ranges[k].End(), attemptLimit)
  }

  ghost predicate Attended(s: seq<Extent>, t: seq<Extent>, attemptLimit: nat) {
    forall x: nat :: SectorAttended(At(s, x), At(t, x), attemptLimit)
  }

  lemma MarkOfProgress(b: Moment, c: Moment, x: nat, sectorSize: nat, capacity: nat, limit: nat, live: bool)
    requires Progress(b, c, sectorSize, capacity, limit, live)
    ensures b.trace <= c.trace
    ensures MarkProgress(At(b.extents, x), At(c.extents, x), Count(Since(b, c), x), Count(Fulls(Since(b, c)), x), limit, live)
  {
    hide MarkProgress, Count, Fulls, CallsProgress, SameBytes, HoldsRead, Aligned;
    assert SectorProgress(b, c, Since(b, c), x, sectorSize, limit, live);
  }

  lemma RangeStaysAttended(s: seq<Extent>, b: Moment, c: Moment, start: nat, end: nat, attemptLimit: nat,
                           sectorSize: nat, capacity: nat, limit: nat, live: bool)
    requires Progress(b, c, sectorSize, capacity, limit, live) && RangeAttended(s, b.extents, start, end, attemptLimit)
    ensures RangeAttended(s, c.extents, start, end, attemptLimit)
  {
    hide Progress;
    forall x: nat | start <= x < end ensures SectorAttended(At(s, x), At(c.extents, x), attemptLimit) {
      MarkOfProgress(b, c, x, sectorSize, capacity, limit, live);
    }
  }

  lemma RangesStayAttended(s: seq<Extent>, b: Moment, c: Moment, ranges: seq<Extent>, n: nat, attemptLimit: nat,
                           sectorSize: nat, capacity: nat, limit: nat, live: bool)
    requires Progress(b, c, sectorSize, capacity, limit, live) && n <= |ranges| && RangesAttended(s, b.extents, ranges, n, attemptLimit)
    ensures RangesAttended(s, c.extents, ranges, n, attemptLimit)
  {
    hide Progress, RangeAttended;
    forall k | 0 <= k < n ensures RangeAttended(s, c.extents, ranges[k].start, ranges[k].End(), attemptLimit) {
      RangeStaysAttended(s, b, c, ranges[k].start, ranges[k].End(), attemptLimit, sectorSize, capacity, limit, live);
    }
  }

  lemma AllRangesAttended(s: seq<Extent>, t: seq<Extent>, attemptLimit: nat)
    requires ValidSet(s) && RangesAttended(s, t, RetryableExtents(s), |RetryableExtents(s)|, attemptLimit)
    ensures Attended(s, t, attemptLimit)
  {
    hide ValidSet;
    forall x: nat ensures SectorAttended(At(s, x), At(t, x), attemptLimit) {
      if Retryable(At(s, x)) {
        var k := SelectedSector(s, x);
        assert RangeAttended(s, t, RetryableExtents(s)[k].start, RetryableExtents(s)[k].End(), attemptLimit);
      }
    }
  }

  /** A sector that is not retryable any more, or not below the limit, has been attended to. */
  lemma SkippedIsAttended(a: Moment, b: Moment, x: nat, attemptLimit: nat, sectorSize: nat, capacity: nat, limit: nat)
    requires Progress(a, b, sectorSize, capacity, limit, true)
    requires At(b.extents, x).None? || !Retryable(At(b.extents, x)) || attemptLimit <= Attempts(At(b.extents, x))
    requires At(b.extents, x).Some? ==> ValidMark(At(b.extents, x).value)
    ensures SectorAttended(At(a.extents, x), At(b.extents, x), attemptLimit)
  {
    hide Progress;
    MarkOfProgress(a, b, x, sectorSize, capacity, limit, true);
  }

  lemma SkipIsAttended(a: Moment, b: Moment, lba: nat, attemptLimit: nat, sectorSize: nat, capacity: nat, limit: nat)
    requires Progress(a, b, sectorSize, capacity, limit, true) && ValidSet(b.extents) && ExtentAt(b.extents, lba).Some?
    requires var m := ExtentAt(b.extents, lba).value.mark; !IsRetryableState(m.state) || attemptLimit <= m.attempts
    ensures RangeAttended(a.extents, b.extents, lba, ExtentAt(b.extents, lba).value.End(), attemptLimit)
  {
    hide Progress;
    var e := ExtentAt(b.extents, lba).value;
    InExtent(b.extents, lba, e.End() - lba);
    forall x: nat | lba <= x < e.End() ensures SectorAttended(At(a.extents, x), At(b.extents, x), attemptLimit) {
      MarkValid(b.extents, x);
      SkippedIsAttended(a, b, x, attemptLimit, sectorSize, capacity, limit);
    }
  }

  /** A sector that was read has one attempt more. */
  lemma BlockIsAttended(a: Moment, b: Moment, c: Moment, lba: nat, sectors: nat, attemptLimit: nat, sectorSize: nat, capacity: nat, limit: nat)
    requires Progress(a, b, sectorSize, capacity, limit, true) && Progress(b, c, sectorSize, capacity, limit, true)
    requires OnlyBlock(b, c, lba, sectors) && c.trace != b.trace
    ensures RangeAttended(a.extents, c.extents, lba, lba + sectors, attemptLimit)
  {
    hide Progress, MarkProgress, Count, Fulls, At, ValidSet;
    var r :| c.trace == b.trace + [r] && r.start == lba && r.sectors == sectors;
    assert Since(b, c) == [r];
    forall x: nat | lba <= x < lba + sectors ensures SectorAttended(At(a.extents, x), At(c.extents, x), attemptLimit) {
      MarkOfProgress(a, b, x, sectorSize, capacity, limit, true);
      MarkOfProgress(b, c, x, sectorSize, capacity, limit, true);
      CountOne(r, x);
      assert MarkProgress(At(b.extents, x), At(c.extents, x), 1, Count(Fulls([r]), x), limit, true);
      OneMoreAttempt(At(a.extents, x), At(b.extents, x), At(c.extents, x), Count(Since(a, b), x), Count(Fulls(Since(a, b)), x), Count(Fulls([r]), x), limit);
    }
  }

  lemma OneMoreAttempt(m: Option<Mark>, m': Option<Mark>, m'': Option<Mark>, r1: nat, f1: nat, f2: nat, limit: nat)
    requires MarkProgress(m, m', r1, f1, limit, true) && MarkProgress(m', m'', 1, f2, limit, true)
    ensures Attempts(m) < Attempts(m'')
  {
  }

  lemma RangeJoins(s: seq<Extent>, t: seq<Extent>, start: nat, middle: nat, end: nat, attemptLimit: nat)
    requires RangeAttended(s, t, start, middle, attemptLimit) && RangeAttended(s, t, middle, end, attemptLimit)
    ensures RangeAttended(s, t, start, end, attemptLimit)
  {
  }

  lemma RangeShrinks(s: seq<Extent>, t: seq<Extent>, start: nat, end: nat, less: nat, attemptLimit: nat)
    requires RangeAttended(s, t, start, end, attemptLimit) && less <= end
    ensures RangeAttended(s, t, start, less, attemptLimit)
  {
  }

  // ----- no sector is read twice

  ghost predicate ReadOnce(a: Moment, b: Moment)
    requires |a.trace| <= |b.trace|
  {
    forall x: nat :: Count(Since(a, b), x) <= 1
  }

  /** Since a, no sector was read twice, and none from this one on at all. */
  ghost predicate ReadBefore(a: Moment, b: Moment, from: nat)
    requires |a.trace| <= |b.trace|
  {
    forall x: nat :: Count(Since(a, b), x) <= (if x < from then 1 else 0)
  }

  ghost predicate SameFrom(s: seq<Extent>, t: seq<Extent>, from: nat) {
    forall x: nat :: from <= x ==> At(t, x) == At(s, x)
  }

  lemma ReadBeforeGrows(a: Moment, b: Moment, from: nat, later: nat)
    requires |a.trace| <= |b.trace| && ReadBefore(a, b, from) && from <= later
    ensures ReadBefore(a, b, later) && ReadOnce(a, b)
  {
    hide Count;
  }

  lemma BlockReadBefore(a: Moment, b: Moment, c: Moment, from: nat, lba: nat, sectors: nat)
    requires a.trace <= b.trace && ReadBefore(a, b, from) && from <= lba && OnlyBlock(b, c, lba, sectors)
    ensures a.trace <= c.trace && ReadBefore(a, c, lba + sectors) && ReadOnce(a, c)
  {
    hide Count;
    if c.trace != b.trace {
      var r :| c.trace == b.trace + [r] && r.start == lba && r.sectors == sectors;
      assert Since(a, c) == Since(a, b) + [r];
      forall x: nat ensures Count(Since(a, c), x) <= (if x < lba + sectors then 1 else 0) {
        CountConcat(Since(a, b), [r], x);
        CountOne(r, x);
      }
    } else {
      assert Since(a, c) == Since(a, b);
    }
  }

  lemma NothingReadYet(a: Moment)
    ensures ReadBefore(a, a, 0) && SameFrom(a.extents, a.extents, 0) && ReadOnce(a, a)
  {
    assert Since(a, a) == [];
  }

  /** With the list canonical when the pass began, the extent found at a sector the pass has not reached ends no
      later than the range it lies in, whatever has been joined and split before it. */
  lemma StaysInRange(s: seq<Extent>, t: seq<Extent>, range: Extent, lba: nat)
    requires Canonical(s) && range in s && range.Covers(lba)
    requires ValidSet(t) && SameFrom(s, t, lba) && ExtentAt(t, lba).Some?
    ensures ExtentAt(t, lba).value.End() <= range.End()
  {
    hide Canonical;
    var current := ExtentAt(t, lba).value;
    if range.End() < current.End() {
      InExtent(t, lba, current.End() - lba);
      var i: nat :| i < |s| && s[i] == range;
      CanonicalIsValid(s);
      AtIndex(s, i, lba);
      assert At(t, lba) == At(s, lba) && At(t, range.End()) == At(s, range.End());
      EndsThere(s, range);
    }
  }

  lemma CanonicalIsValid(s: seq<Extent>)
    requires Canonical(s)
    ensures ValidSet(s)
  {
  }

  lemma SameFromAfter(s: seq<Extent>, b: Moment, c: Moment, lba: nat, sectors: nat)
    requires SameFrom(s, b.extents, lba) && OnlyBlock(b, c, lba, sectors)
    ensures SameFrom(s, c.extents, lba + sectors)
  {
  }

  // ----- the adaptive and the targeted pass

  /** Where the pass has got to inside the list it began with; `from` is a sector it has not gone beyond. */
  ghost predicate Orderly(a: Moment, b: Moment, from: nat) {
    Canonical(a.extents) ==> a.trace <= b.trace && ReadBefore(a, b, from) && SameFrom(a.extents, b.extents, from)
  }

  lemma OrderlyGrows(a: Moment, b: Moment, from: nat, later: nat)
    requires Orderly(a, b, from) && from <= later
    ensures Orderly(a, b, later)
  {
    hide Canonical, Count;
  }

  lemma OrderlyReadOnce(a: Moment, b: Moment, from: nat)
    requires Orderly(a, b, from) && |a.trace| <= |b.trace|
    ensures Canonical(a.extents) ==> ReadOnce(a, b)
  {
    hide Canonical, Count;
  }

  lemma OrderlyBlock(a: Moment, b: Moment, c: Moment, lba: nat, sectors: nat)
    requires Orderly(a, b, lba) && OnlyBlock(b, c, lba, sectors)
    ensures Orderly(a, c, lba + sectors)
  {
    hide Canonical;
    if Canonical(a.extents) {
      BlockReadBefore(a, b, c, lba, lba, sectors);
      SameFromAfter(a.extents, b, c, lba, sectors);
    }
  }

  lemma OrderlyStaysInRange(a: Moment, b: Moment, range: Extent, lba: nat)
    requires Orderly(a, b, lba) && range in a.extents && range.Covers(lba) && ValidSet(b.extents) && ExtentAt(b.extents, lba).Some?
    ensures Canonical(a.extents) ==> ExtentAt(b.extents, lba).value.End() <= range.End()
  {
    hide Canonical, ReadBefore;
    if Canonical(a.extents) {
      StaysInRange(a.extents, b.extents, range, lba);
    }
  }

  lemma OrderlyNothing(a: Moment)
    ensures Orderly(a, a, 0)
  {
    NothingReadYet(a);
  }

  /** A read of the pass takes a whole block, or as much of one as its range has left. */
  ghost predicate RangeBlocks(a: Moment, trace: seq<Read>, block: nat) {
    forall i :: |a.trace| <= i < |trace| ==>
      var (start, end) := (trace[i].start, trace[i].start + trace[i].sectors);
      end - start <= block && (Canonical(a.extents) ==> end - start == block || At(a.extents, end) != At(a.extents, start))
  }

  lemma RangeBlocksNothing(a: Moment, block: nat)
    ensures RangeBlocks(a, a.trace, block)
  {
  }

  lemma RangeBlocksStep(a: Moment, b: Moment, c: Moment, lba: nat, sectors: nat, block: nat)
    requires RangeBlocks(a, b.trace, block) && Orderly(a, b, lba) && OnlyBlock(b, c, lba, sectors) && |a.trace| <= |b.trace|
    requires ExtentAt(b.extents, lba).Some? && sectors == Min(block, ExtentAt(b.extents, lba).value.End() - lba)
    requires ValidSet(b.extents) && (Canonical(a.extents) ==> Canonical(b.extents))
    ensures RangeBlocks(a, c.trace, block)
  {
    hide Canonical, ReadBefore;
    var current, end := ExtentAt(b.extents, lba).value, lba + sectors;
    if Canonical(a.extents) && sectors < block {
      InExtent(b.extents, lba, sectors);
      EndsThere(b.extents, current);
      assert At(b.extents, lba) == At(a.extents, lba) && At(b.extents, end) == At(a.extents, end);
    }
    if c.trace != b.trace {
      var r :| c.trace == b.trace + [r] && r.start == lba && r.sectors == sectors;
    }
  }

  lemma CanonicalProgress(a: Moment, b: Moment, sectorSize: nat, capacity: nat, limit: nat, live: bool)
    requires Progress(a, b, sectorSize, capacity, limit, live)
    ensures Canonical(a.extents) ==> Canonical(b.extents)
  {
    hide Canonical;
  }

  /** One block of a range (recovery_adaptive_pass.go:40-47). */
  method RetryBlock(p: RecoveryPersistence, d: Device, sectorSize: uint32, lba: uint64, sectors: uint64, ghost blockSectors: nat,
                    ghost attemptLimit: uint16, ghost start: nat, ghost a: Moment, ghost ranges: seq<Extent>, ghost i: nat,
                    ghost capacity: nat, ghost limit: nat) returns (e: Option<RunError>)
    requires Ready(p, capacity) && 0 < sectorSize && 0 < sectors && attemptLimit <= limit <= 0xFFFF
    requires i < |ranges| && start <= lba
    requires ExtentAt(p.store.extents, lba).Some? && sectors == Min(blockSectors, ExtentAt(p.store.extents, lba).value.End() - lba)
    requires IsRetryableState(ExtentAt(p.store.extents, lba).value.mark.state) && ExtentAt(p.store.extents, lba).value.mark.attempts < attemptLimit
    requires Progress(a, Now(p, d), sectorSize, capacity, limit, true) && |a.trace| <= |d.trace|
    requires Orderly(a, Now(p, d), lba) && RangeBlocks(a, d.trace, blockSectors)
    requires RangesAttended(a.extents, p.store.extents, ranges, i, attemptLimit)
    requires RangeAttended(a.extents, p.store.extents, start, lba, attemptLimit)
    modifies p, p.store, p.medium, d
    ensures Ready(p, capacity)
    ensures Progress(a, Now(p, d), sectorSize, capacity, limit, e.None?) && |a.trace| <= |d.trace|
    ensures Canonical(a.extents) ==> ReadOnce(a, Now(p, d))
    ensures RangeBlocks(a, d.trace, blockSectors) && Orderly(a, Now(p, d), lba + sectors)
    ensures e.None? ==> RangesAttended(a.extents, p.store.extents, ranges, i, attemptLimit)
                        && RangeAttended(a.extents, p.store.extents, start, lba + sectors, attemptLimit)
    ensures Excused(e, p, d)
  {
    hide Progress, RecoveryPersistence.Valid, Sound, Harmless, At, ExtentAt, Canonical, Orderly, OnlyBlock, RangesAttended, RangeAttended, ReadOnce,
         RangeBlocks, Excused;
    ghost var b := Now(p, d);
    SoundParts(b.extents, capacity);
    e := AttemptDeferredBlock(p, d, sectorSize, lba, sectors, capacity, limit);
    ghost var c := Now(p, d);
    CanonicalProgress(a, b, sectorSize, capacity, limit, true);
    ProgressThen(a, b, c, sectorSize, capacity, limit, e.None?);
    RangeBlocksStep(a, b, c, lba, sectors, blockSectors);
    OrderlyBlock(a, b, c, lba, sectors);
    OrderlyReadOnce(a, c, lba + sectors);
    if e.Some? {
      return;
    }
    RangesStayAttended(a.extents, b, c, ranges, i, attemptLimit, sectorSize, capacity, limit, true);
    RangeStaysAttended(a.extents, b, c, start, lba, attemptLimit, sectorSize, capacity, limit, true);
    BlockIsAttended(a, b, c, lba, sectors, attemptLimit, sectorSize, capacity, limit);
    RangeJoins(a.extents, c.extents, start, lba, lba + sectors, attemptLimit);
  }

  /** One range of the pass: the inner loop of recovery_adaptive_pass.go:27-49. */
  method RetryRange(p: RecoveryPersistence, d: Device, sectorSize: uint32, blockSectors: uint64, attemptLimit: uint16, range: Extent,
                    ghost a: Moment, ghost ranges: seq<Extent>, ghost i: nat, ghost capacity: nat, ghost limit: nat) returns (e: Option<RunError>)
    requires Ready(p, capacity) && 0 < sectorSize && 0 < blockSectors && attemptLimit <= limit <= 0xFFFF
    requires i < |ranges| && range == ranges[i] && range in a.extents
    requires Progress(a, Now(p, d), sectorSize, capacity, limit, true) && |a.trace| <= |d.trace|
    requires Orderly(a, Now(p, d), range.start) && RangeBlocks(a, d.trace, blockSectors)
    requires RangesAttended(a.extents, p.store.extents, ranges, i, attemptLimit)
    modifies p, p.store, p.medium, d
    ensures Ready(p, capacity)
    ensures Progress(a, Now(p, d), sectorSize, capacity, limit, e.None?)
    ensures |a.trace| <= |d.trace| && (Canonical(a.extents) ==> ReadOnce(a, Now(p, d))) && RangeBlocks(a, d.trace, blockSectors)
    ensures e.None? ==> RangesAttended(a.extents, p.store.extents, ranges, i + 1, attemptLimit) && Orderly(a, Now(p, d), range.End())
    ensures Excused(e, p, d)
  {
    hide Progress, RecoveryPersistence.Valid, Sound, Harmless, At, ExtentAt, Canonical, Orderly, OnlyBlock, RangesAttended, RangeAttended, ReadOnce,
         RangeBlocks;
    var lba := range.start;
    NothingAttended(a.extents, p.store.extents, lba, attemptLimit);
    while lba < range.End()
      invariant range.start <= lba && (Canonical(a.extents) ==> lba <= range.End())
      invariant Ready(p, capacity)
      invariant Progress(a, Now(p, d), sectorSize, capacity, limit, true) && |a.trace| <= |d.trace|
      invariant Orderly(a, Now(p, d), lba) && RangeBlocks(a, d.trace, blockSectors)
      invariant RangesAttended(a.extents, p.store.extents, ranges, i, attemptLimit)
      invariant RangeAttended(a.extents, p.store.extents, range.start, lba, attemptLimit)
      decreases range.End() - lba
    {
      ghost var b := Now(p, d);
      SoundParts(b.extents, capacity);
      OrderlyReadOnce(a, b, lba);
      ProgressWeakens(a, b, sectorSize, capacity, limit, false);
      var stop := d.Cancelled();
      if stop {
        return Some(Canceled);
      }
      var current, _ := LookupExtent(p.store.extents, lba);
      if current.None? {
        NoneIsAttended(a, b, range.start, lba, attemptLimit, sectorSize, capacity, limit);
        OrderlyGrows(a, b, lba, lba + 1);
        lba := lba + 1;
        continue;
      }
      OrderlyStaysInRange(a, b, range, lba);
      if !IsRetryableState(current.value.mark.state) || current.value.mark.attempts >= attemptLimit {
        SkipIsAttended(a, b, lba, attemptLimit, sectorSize, capacity, limit);
        RangeJoins(a.extents, b.extents, range.start, lba, current.value.End(), attemptLimit);
        OrderlyGrows(a, b, lba, current.value.End());
        lba := current.value.End();
        continue;
      }
      var sectors := blockSectors;
      if current.value.End() - lba < sectors {
        sectors := current.value.End() - lba;
      }
      e := RetryBlock(p, d, sectorSize, lba, sectors, blockSectors, attemptLimit, range.start, a, ranges, i, capacity, limit);
      if e.Some? {
        return;
      }
      lba := lba + sectors;
    }
    OrderlyReadOnce(a, Now(p, d), lba);
    RangeShrinks(a.extents, p.store.extents, range.start, lba, range.End(), attemptLimit);
    OneMoreRange(a.extents, p.store.extents, ranges, i, attemptLimit);
    OrderlyAt(a, Now(p, d), lba, range.End());
    return None;
  }

  lemma OrderlyAt(a: Moment, b: Moment, lba: nat, end: nat)
    requires Orderly(a, b, lba) && (Canonical(a.extents) ==> lba <= end)
    ensures Orderly(a, b, end)
  {
    hide Canonical;
    if Canonical(a.extents) {
      OrderlyGrows(a, b, lba, end);
    }
  }

  lemma NothingAttended(s: seq<Extent>, t: seq<Extent>, start: nat, attemptLimit: nat)
    ensures RangeAttended(s, t, start, start, attemptLimit)
  {
  }

  lemma NoneIsAttended(a: Moment, b: Moment, start: nat, lba: nat, attemptLimit: nat, sectorSize: nat, capacity: nat, limit: nat)
    requires Progress(a, b, sectorSize, capacity, limit, true) && At(b.extents, lba).None?
    requires RangeAttended(a.extents, b.extents, start, lba, attemptLimit)
    ensures RangeAttended(a.extents, b.extents, start, lba + 1, attemptLimit)
  {
    hide Progress;
    SkippedIsAttended(a, b, lba, attemptLimit, sectorSize, capacity, limit);
  }

  lemma OneMoreRange(s: seq<Extent>, t: seq<Extent>, ranges: seq<Extent>, i: nat, attemptLimit: nat)
    requires i < |ranges| && RangesAttended(s, t, ranges, i, attemptLimit)
    requires RangeAttended(s, t, ranges[i].start, ranges[i].End(), attemptLimit)
    ensures RangesAttended(s, t, ranges, i + 1, attemptLimit)
  {
    hide RangeAttended;
  }

  /** runAdaptivePass (recovery_adaptive_pass.go:12), also the targeted pass: every range that may be retried is read
      once in blocks. */
  method RunAdaptivePass(p: RecoveryPersistence, d: Device, sectorSize: uint32, blockSectors: uint64, attemptLimit: uint16,
                         ghost capacity: nat, ghost limit: nat) returns (e: Option<RunError>)
    requires Ready(p, capacity) && 0 < sectorSize && 0 < blockSectors && attemptLimit <= limit <= 0xFFFF
    modifies p, p.store, p.medium, d
    ensures Ready(p, capacity)
    ensures Progress(old(Now(p, d)), Now(p, d), sectorSize, capacity, limit, e.None?)
    ensures |old(d.trace)| <= |d.trace| && (old(Canonical(p.store.extents)) ==> ReadOnce(old(Now(p, d)), Now(p, d)))
    ensures RangeBlocks(old(Now(p, d)), d.trace, blockSectors)
    ensures e.None? ==> Attended(old(p.store.extents), p.store.extents, attemptLimit)
    ensures Excused(e, p, d)
  {
    hide Progress, RecoveryPersistence.Valid, Sound, Harmless, Canonical, Orderly, RangesAttended, ReadOnce, Separated, Attended, RangeBlocks,
         RetryableExtents;
    ghost var a := Now(p, d);
    NoProgress(a, sectorSize, capacity, limit);
    SoundParts(a.extents, capacity);
    var ranges := SelectRetryable(p.store.extents);
    SelectionSeparated(a.extents);
    OrderlyNothing(a);
    RangeBlocksNothing(a, blockSectors);
    NoRangesAttended(a.extents, a.extents, ranges, attemptLimit);
    ghost var reached: nat := 0;
    for i := 0 to |ranges|
      invariant Ready(p, capacity)
      invariant Progress(a, Now(p, d), sectorSize, capacity, limit, true) && |a.trace| <= |d.trace|
      invariant Orderly(a, Now(p, d), reached) && (i < |ranges| ==> reached <= ranges[i].start) && RangeBlocks(a, d.trace, blockSectors)
      invariant RangesAttended(a.extents, p.store.extents, ranges, i, attemptLimit)
    {
      OrderlyGrows(a, Now(p, d), reached, ranges[i].start);
      SelectedInList(a.extents, i);
      e := RetryRange(p, d, sectorSize, blockSectors, attemptLimit, ranges[i], a, ranges, i, capacity, limit);
      if e.Some? {
        return;
      }
      reached := ranges[i].End();
      NextRange(ranges, i);
    }
    OrderlyReadOnce(a, Now(p, d), reached);
    AllRangesAttended(a.extents, p.store.extents, attemptLimit);
    return None;
  }

  lemma SelectedInList(s: seq<Extent>, i: nat)
    requires i < |RetryableExtents(s)|
    ensures RetryableExtents(s)[i] in s
  {
  }

  lemma NextRange(ranges: seq<Extent>, i: nat)
    requires Separated(ranges) && i < |ranges|
    ensures i + 1 < |ranges| ==> ranges[i].End() <= ranges[i+1].start
  {
  }

  lemma NoRangesAttended(s: seq<Extent>, t: seq<Extent>, ranges: seq<Extent>, attemptLimit: nat)
    ensures RangesAttended(s, t, ranges, 0, attemptLimit)
  {
  }

  // ----- the trim pass

  /** The outermost sectors of a retryable range of at least two. */
  predicate EdgeOf(e: Extent, x: nat) {
    1 < e.sectors && (x == e.start || x == e.End() - 1)
  }

  ghost predicate OnlyEdges(a: Moment, b: Moment, ranges: seq<Extent>)
    requires |a.trace| <= |b.trace|
  {
    forall x: nat :: Count(Since(a, b), x) > 0 ==> exists k :: 0 <= k < |ranges| && EdgeOf(ranges[k], x)
  }

  ghost predicate EdgesAttended(s: seq<Extent>, t: seq<Extent>, ranges: seq<Extent>, n: nat, attemptLimit: nat)
    requires n <= |ranges|
  {
    forall k, x: nat :: 0 <= k < n && EdgeOf(ranges[k], x) ==> SectorAttended(At(s, x), At(t, x), attemptLimit)
  }

  ghost predicate AllEdgesAttended(s: seq<Extent>, t: seq<Extent>, attemptLimit: nat) {
    EdgesAttended(s, t, RetryableExtents(s), |RetryableExtents(s)|, attemptLimit)
  }

  lemma EdgeRead(a: Moment, b: Moment, c: Moment, ranges: seq<Extent>, k: nat, lba: nat)
    requires a.trace <= b.trace && OnlyEdges(a, b, ranges) && OnlyBlock(b, c, lba, 1) && k < |ranges| && EdgeOf(ranges[k], lba)
    ensures a.trace <= c.trace && OnlyEdges(a, c, ranges)
  {
    hide Count, EdgeOf;
    if c.trace != b.trace {
      var r :| c.trace == b.trace + [r] && r.start == lba && r.sectors == 1;
      assert Since(a, c) == Since(a, b) + [r];
      forall x: nat | Count(Since(a, c), x) > 0 ensures exists k :: 0 <= k < |ranges| && EdgeOf(ranges[k], x) {
        CountConcat(Since(a, b), [r], x);
        CountOne(r, x);
      }
    } else {
      assert Since(a, c) == Since(a, b);
    }
  }

  lemma EdgesStayAttended(s: seq<Extent>, b: Moment, c: Moment, ranges: seq<Extent>, n: nat, attemptLimit: nat,
                          sectorSize: nat, capacity: nat, limit: nat, live: bool)
    requires Progress(b, c, sectorSize, capacity, limit, live) && n <= |ranges| && EdgesAttended(s, b.extents, ranges, n, attemptLimit)
    ensures EdgesAttended(s, c.extents, ranges, n, attemptLimit)
  {
    hide Progress, EdgeOf;
    forall k, x: nat | 0 <= k < n && EdgeOf(ranges[k], x) ensures SectorAttended(At(s, x), At(c.extents, x), attemptLimit) {
      MarkOfProgress(b, c, x, sectorSize, capacity, limit, live);
      assert SectorAttended(At(s, x), At(b.extents, x), attemptLimit);
    }
  }

  lemma SectorStaysAttended(s: seq<Extent>, b: Moment, c: Moment, x: nat, attemptLimit: nat,
                            sectorSize: nat, capacity: nat, limit: nat, live: bool)
    requires Progress(b, c, sectorSize, capacity, limit, live) && SectorAttended(At(s, x), At(b.extents, x), attemptLimit)
    ensures SectorAttended(At(s, x), At(c.extents, x), attemptLimit)
  {
    hide Progress;
    MarkOfProgress(b, c, x, sectorSize, capacity, limit, live);
  }

  /** One edge of the trim pass (recovery_trim_pass.go:29-38). */
  method TrimEdge(p: RecoveryPersistence, d: Device, sectorSize: uint32, attemptLimit: uint16, lba: uint64, ghost after: nat,
                  ghost a: Moment, ghost ranges: seq<Extent>, ghost i: nat, ghost capacity: nat, ghost limit: nat) returns (e: Option<RunError>)
    requires Ready(p, capacity) && 0 < sectorSize && attemptLimit <= limit <= 0xFFFF
    requires i < |ranges| && EdgeOf(ranges[i], lba) && after == lba + 1
    requires Progress(a, Now(p, d), sectorSize, capacity, limit, true) && a.trace <= d.trace
    requires ReadBefore(a, Now(p, d), lba) && OnlyEdges(a, Now(p, d), ranges)
    requires EdgesAttended(a.extents, p.store.extents, ranges, i, attemptLimit)
    modifies p, p.store, p.medium, d
    ensures Ready(p, capacity)
    ensures Progress(old(Now(p, d)), Now(p, d), sectorSize, capacity, limit, e.None?)
    ensures Progress(a, Now(p, d), sectorSize, capacity, limit, e.None?) && a.trace <= d.trace
    ensures ReadBefore(a, Now(p, d), after) && OnlyEdges(a, Now(p, d), ranges)
    ensures EdgesAttended(a.extents, p.store.extents, ranges, i, attemptLimit)
    ensures e.None? ==> SectorAttended(At(a.extents, lba), At(p.store.extents, lba), attemptLimit)
    ensures Excused(e, p, d)
  {
    hide Progress, RecoveryPersistence.Valid, Sound, Harmless, At, ExtentAt, OnlyBlock, ReadBefore, OnlyEdges, EdgesAttended, SectorAttended, ReadOnce;
    ghost var b := Now(p, d);
    SoundParts(b.extents, capacity);
    NoProgress(b, sectorSize, capacity, limit);
    ProgressWeakens(b, b, sectorSize, capacity, limit, false);
    ProgressWeakens(a, b, sectorSize, capacity, limit, false);
    ReadBeforeGrows(a, b, lba, after);
    var stop := d.Cancelled();
    if stop {
      return Some(Canceled);
    }
    var current, _ := LookupExtent(p.store.extents, lba);
    if current.None? || !IsRetryableState(current.value.mark.state) || current.value.mark.attempts >= attemptLimit {
      MarkIsValid(b.extents, lba);
      SkippedIsAttended(a, b, lba, attemptLimit, sectorSize, capacity, limit);
      return None;
    }
    e := AttemptDeferredBlock(p, d, sectorSize, lba, 1, capacity, limit);
    ghost var c := Now(p, d);
    ProgressThen(a, b, c, sectorSize, capacity, limit, e.None?);
    BlockReadBefore(a, b, c, lba, lba, 1);
    EdgeRead(a, b, c, ranges, i, lba);
    EdgesStayAttended(a.extents, b, c, ranges, i, attemptLimit, sectorSize, capacity, limit, e.None?);
    if e.None? {
      BlockIsAttended(a, b, c, lba, 1, attemptLimit, sectorSize, capacity, limit);
      InRange(a.extents, c.extents, lba, attemptLimit);
    }
  }

  lemma InRange(s: seq<Extent>, t: seq<Extent>, lba: nat, attemptLimit: nat)
    requires RangeAttended(s, t, lba, lba + 1, attemptLimit)
    ensures SectorAttended(At(s, lba), At(t, lba), attemptLimit)
  {
  }

  lemma MarkIsValid(s: seq<Extent>, lba: nat)
    requires ValidSet(s)
    ensures At(s, lba).Some? ==> ValidMark(At(s, lba).value)
  {
    if At(s, lba).Some? {
      MarkValid(s, lba);
    }
  }

  lemma OneMoreEdge(s: seq<Extent>, t: seq<Extent>, ranges: seq<Extent>, i: nat, attemptLimit: nat)
    requires i < |ranges| && EdgesAttended(s, t, ranges, i, attemptLimit)
    requires 1 < ranges[i].sectors ==> SectorAttended(At(s, ranges[i].start), At(t, ranges[i].start), attemptLimit)
    requires 1 < ranges[i].sectors ==> SectorAttended(At(s, ranges[i].End() - 1), At(t, ranges[i].End() - 1), attemptLimit)
    ensures EdgesAttended(s, t, ranges, i + 1, attemptLimit)
  {
    hide SectorAttended, At;
  }

  lemma RangeEdges(e: Extent)
    ensures 1 < e.sectors ==> EdgeOf(e, e.start) && EdgeOf(e, e.End() - 1)
    ensures forall x: nat :: EdgeOf(e, x) ==> 1 < e.sectors
  {
  }

  lemma NoEdgesYet(a: Moment, ranges: seq<Extent>, attemptLimit: nat)
    ensures OnlyEdges(a, a, ranges) && EdgesAttended(a.extents, a.extents, ranges, 0, attemptLimit) && ReadBefore(a, a, 0)
  {
    NothingReadYet(a);
    assert Since(a, a) == [];
  }

  /** Both ends of one range (recovery_trim_pass.go:23-40). */
  method TrimRange(p: RecoveryPersistence, d: Device, sectorSize: uint32, attemptLimit: uint16, range: Extent,
                   ghost a: Moment, ghost ranges: seq<Extent>, ghost i: nat, ghost capacity: nat, ghost limit: nat) returns (e: Option<RunError>)
    requires Ready(p, capacity) && 0 < sectorSize && attemptLimit <= limit <= 0xFFFF
    requires i < |ranges| && range == ranges[i] && range.Valid()
    requires Progress(a, Now(p, d), sectorSize, capacity, limit, true) && a.trace <= d.trace
    requires ReadBefore(a, Now(p, d), range.start) && OnlyEdges(a, Now(p, d), ranges)
    requires EdgesAttended(a.extents, p.store.extents, ranges, i, attemptLimit)
    modifies p, p.store, p.medium, d
    ensures Ready(p, capacity)
    ensures Progress(a, Now(p, d), sectorSize, capacity, limit, e.None?) && a.trace <= d.trace
    ensures ReadBefore(a, Now(p, d), range.End()) && OnlyEdges(a, Now(p, d), ranges)
    ensures e.None? ==> EdgesAttended(a.extents, p.store.extents, ranges, i + 1, attemptLimit)
    ensures Excused(e, p, d)
  {
    hide Progress, RecoveryPersistence.Valid, Sound, Harmless, At, OnlyEdges, EdgesAttended, ReadBefore, ReadOnce, SectorAttended, EdgeOf;
    ghost var end := range.End();
    if range.sectors <= 1 {
      RangeEdges(range);
      OneMoreEdge(a.extents, p.store.extents, ranges, i, attemptLimit);
      ReadBeforeGrows(a, Now(p, d), range.start, end);
      return None;
    }
    var first, last := range.start, range.End() - 1;
    ghost var second := range.start + 1;
    RangeEdges(range);
    e := TrimEdge(p, d, sectorSize, attemptLimit, first, second, a, ranges, i, capacity, limit);
    ReadBeforeGrows(a, Now(p, d), second, last);
    if e.Some? {
      ReadBeforeGrows(a, Now(p, d), last, end);
      return;
    }
    ghost var b := Now(p, d);
    e := TrimEdge(p, d, sectorSize, attemptLimit, last, end, a, ranges, i, capacity, limit);
    if e.Some? {
      return;
    }
    SectorStaysAttended(a.extents, b, Now(p, d), first, attemptLimit, sectorSize, capacity, limit, true);
    OneMoreEdge(a.extents, p.store.extents, ranges, i, attemptLimit);
  }

  /** runTrimPass (recovery_trim_pass.go:11): one read of one sector at each end of every range of two or more. */
  method RunTrimPass(p: RecoveryPersistence, d: Device, sectorSize: uint32, attemptLimit: uint16,
                     ghost capacity: nat, ghost limit: nat) returns (e: Option<RunError>)
    requires Ready(p, capacity) && 0 < sectorSize && attemptLimit <= limit <= 0xFFFF
    modifies p, p.store, p.medium, d
    ensures Ready(p, capacity)
    ensures Progress(old(Now(p, d)), Now(p, d), sectorSize, capacity, limit, e.None?)
    ensures |old(d.trace)| <= |d.trace| && ReadOnce(old(Now(p, d)), Now(p, d))
    ensures OnlyEdges(old(Now(p, d)), Now(p, d), old(RetryableExtents(p.store.extents)))
    ensures e.None? ==> AllEdgesAttended(old(p.store.extents), p.store.extents, attemptLimit)
    ensures Excused(e, p, d)
  {
    hide Progress, RecoveryPersistence.Valid, Sound, Harmless, At, OnlyEdges, EdgesAttended, ReadBefore, ReadOnce, Separated,
         RetryableExtents, Canonical;
    ghost var a := Now(p, d);
    NoProgress(a, sectorSize, capacity, limit);
    SoundParts(a.extents, capacity);
    var ranges := SelectRetryable(p.store.extents);
    SelectionSeparated(a.extents);
    SelectionValid(a.extents);
    NoEdgesYet(a, ranges, attemptLimit);
    ghost var reached: nat := 0;
    for i := 0 to |ranges|
      invariant Ready(p, capacity)
      invariant Progress(a, Now(p, d), sectorSize, capacity, limit, true) && a.trace <= d.trace
      invariant ReadBefore(a, Now(p, d), reached) && (i < |ranges| ==> reached <= ranges[i].start)
      invariant OnlyEdges(a, Now(p, d), ranges)
      invariant EdgesAttended(a.extents, p.store.extents, ranges, i, attemptLimit)
    {
      NextRange(ranges, i);
      ReadBeforeGrows(a, Now(p, d), reached, ranges[i].start);
      e := TrimRange(p, d, sectorSize, attemptLimit, ranges[i], a, ranges, i, capacity, limit);
      reached := ranges[i].End();
      ReadBeforeGrows(a, Now(p, d), reached, reached);
      if e.Some? {
        return;
      }
    }
    ReadBeforeGrows(a, Now(p, d), reached, reached);
    return None;
  }

  lemma SelectionValid(s: seq<Extent>)
    requires ValidSet(s)
    ensures forall k :: 0 <= k < |RetryableExtents(s)| ==> RetryableExtents(s)[k].Valid()
  {
    forall k | 0 <= k < |RetryableExtents(s)| ensures RetryableExtents(s)[k].Valid() {
      assert RetryableExtents(s)[k] in s;
    }
  }

  // ----- finalization

  ghost predicate FinalizedTo(s: seq<Extent>, t: seq<Extent>, end: nat) {
    forall x: nat :: At(t, x) == if x < end then Finalized(At(s, x)) else At(s, x)
  }

  /** Nothing is retryable between two neighbours of the selection, nor behind its last. */
  lemma FinalizedGap(s: seq<Extent>, t: seq<Extent>, i: nat, from: nat, end: nat)
    requires ValidSet(s) && i <= |RetryableExtents(s)| && FinalizedTo(s, t, from) && from <= end
    requires forall k :: 0 <= k < i ==> RetryableExtents(s)[k].End() <= from
    requires forall k :: i <= k < |RetryableExtents(s)| ==> end <= RetryableExtents(s)[k].start
    ensures FinalizedTo(s, t, end)
  {
    hide ValidSet;
    forall x: nat ensures At(t, x) == if x < end then Finalized(At(s, x)) else At(s, x) {
      if from <= x < end && Retryable(At(s, x)) {
        var k := SelectedSector(s, x);
        assert false;
      }
    }
  }

  lemma FinalizedRange(s: seq<Extent>, t: seq<Extent>, u: seq<Extent>, i: nat)
    requires ValidSet(s) && i < |RetryableExtents(s)| && FinalizedTo(s, t, RetryableExtents(s)[i].start)
    requires var e := RetryableExtents(s)[i];
             Overridden(t, e.(mark := e.mark.(state := MISSING, confidence := NO_CONFIDENCE)), u)
    ensures FinalizedTo(s, u, RetryableExtents(s)[i].End())
  {
    hide ValidSet;
    var e := RetryableExtents(s)[i];
    var final := e.(mark := e.mark.(state := MISSING, confidence := NO_CONFIDENCE));
    forall x: nat ensures At(u, x) == if x < e.End() then Finalized(At(s, x)) else At(s, x) {
      assert At(u, x) == if final.Covers(x) then Some(final.mark) else At(t, x);
      if e.Covers(x) {
        SelectedMark(s, i, x);
      }
    }
  }

  lemma FinalizableRange(s: seq<Extent>, t: seq<Extent>, i: nat, capacity: nat)
    requires Sound(s, capacity) && Sound(t, capacity) && i < |RetryableExtents(s)| && FinalizedTo(s, t, RetryableExtents(s)[i].start)
    ensures var e := RetryableExtents(s)[i];
            var final := e.(mark := e.mark.(state := MISSING, confidence := NO_CONFIDENCE));
            Apply(t, final).Ok? && Sound(Apply(t, final).value, capacity)
            && Overridden(t, final, Apply(t, final).value) && Canonical(Apply(t, final).value)
            && Unclaimed(t, final.start, final.sectors, final.mark.attempts) && HarmlessMark(final, capacity)
            && forall x: nat :: final.Covers(x) ==> Finalized(At(t, x)) == Some(final.mark)
  {
    hide Apply;
    var e := RetryableExtents(s)[i];
    assert e in s;
    var final := e.(mark := e.mark.(state := MISSING, confidence := NO_CONFIDENCE));
    forall x: nat | e.Covers(x) ensures Retryable(At(t, x)) && At(t, x) == Some(e.mark) {
      SelectedMark(s, i, x);
    }
    Accepted(t, final, capacity);
  }

  lemma SelectedOrder(ranges: seq<Extent>, i: nat)
    requires Separated(ranges) && i < |ranges|
    ensures forall k :: 0 <= k < i ==> ranges[k].End() <= ranges[i].start
    ensures forall k :: i <= k < |ranges| ==> ranges[i].start <= ranges[k].start
  {
    forall k | i <= k < |ranges| ensures ranges[i].start <= ranges[k].start {
      if i < k {
        assert ranges[i].End() <= ranges[k].start;
      }
    }
  }

  ghost predicate EndedBy(ranges: seq<Extent>, i: nat, reached: nat)
    requires i <= |ranges|
  {
    && (forall k :: 0 <= k < i ==> ranges[k].End() <= reached)
    && (forall k :: i <= k < |ranges| ==> reached <= ranges[k].start)
  }

  lemma EndedByNext(ranges: seq<Extent>, i: nat)
    requires Separated(ranges) && i < |ranges|
    ensures EndedBy(ranges, i + 1, ranges[i].End())
  {
    forall k | 0 <= k < i + 1 ensures ranges[k].End() <= ranges[i].End() {
      if k < i {
        assert ranges[k].End() <= ranges[i].start;
      }
    }
  }

  /** One range of the finalization. */
  method FinalizeRange(p: RecoveryPersistence, ghost d: Device, ghost sectorSize: nat, range: Extent,
                       ghost a: Moment, ghost i: nat, ghost reached: nat, ghost capacity: nat, ghost limit: nat) returns (e: Option<RunError>)
    requires Ready(p, capacity) && 0 < sectorSize && Sound(a.extents, capacity) && p.mayGiveUp
    requires Progress(a, Now(p, d), sectorSize, capacity, limit, true)
    requires i < |RetryableExtents(a.extents)| && range == RetryableExtents(a.extents)[i] && Separated(RetryableExtents(a.extents))
    requires EndedBy(RetryableExtents(a.extents), i, reached) && FinalizedTo(a.extents, p.store.extents, reached)
    modifies p, p.store, p.medium
    ensures Ready(p, capacity)
    ensures Progress(a, Now(p, d), sectorSize, capacity, limit, true)
    ensures e.None? ==> FinalizedTo(a.extents, p.store.extents, range.End())
    ensures Excused(e, p, d)
  {
    hide Progress, Apply, RecoveryPersistence.Valid, Sound, Harmless, At, Separated, EndedBy, FinalizedTo, Overridden, Unclaimed, Canonical;
    ghost var b, marks := Now(p, d), p.ledger.marks;
    var final := range.(mark := range.mark.(state := MISSING, confidence := NO_CONFIDENCE));
    SoundParts(a.extents, capacity);
    FinalizedUpTo(a.extents, b.extents, RetryableExtents(a.extents), i, reached);
    FinalizableRange(a.extents, b.extents, i, capacity);
    var applied := p.ApplyExtent(final);
    HarmlessMore(marks, final, p.ledger.marks, capacity);
    if applied.Some? {
      return Some(PersistFailed(applied.value));
    }
    ghost var c := Now(p, d);
    MarkOnly(b, c, final, sectorSize, capacity, limit);
    ProgressThen(a, b, c, sectorSize, capacity, limit, true);
    FinalizedRange(a.extents, b.extents, c.extents, i);
    return None;
  }

  /** finalizeUnresolvedRanges (recovery_finalize.go:9): what may still be retried becomes missing, with its attempts. */
  method FinalizeUnresolvedRanges(p: RecoveryPersistence, ghost d: Device, ghost sectorSize: nat, ghost capacity: nat, ghost limit: nat)
    returns (e: Option<RunError>)
    requires Ready(p, capacity) && 0 < sectorSize && p.mayGiveUp
    modifies p, p.store, p.medium
    ensures Ready(p, capacity)
    ensures Progress(old(Now(p, d)), Now(p, d), sectorSize, capacity, limit, true) && d.trace == old(d.trace)
    ensures e.None? ==> forall x: nat :: At(p.store.extents, x) == Finalized(old(At(p.store.extents, x)))
    ensures Excused(e, p, d)
  {
    hide Progress, RecoveryPersistence.Valid, Sound, Harmless, At, Separated, EndedBy, FinalizedTo, Canonical;
    ghost var a := Now(p, d);
    NoProgress(a, sectorSize, capacity, limit);
    SoundParts(a.extents, capacity);
    var ranges := SelectRetryable(p.store.extents);
    SelectionSeparated(a.extents);
    ghost var reached: nat := 0;
    FinalizedNothing(a.extents, ranges);
    for i := 0 to |ranges|
      invariant Ready(p, capacity)
      invariant Progress(a, Now(p, d), sectorSize, capacity, limit, true) && d.trace == a.trace
      invariant EndedBy(ranges, i, reached) && FinalizedTo(a.extents, p.store.extents, reached)
    {
      e := FinalizeRange(p, d, sectorSize, ranges[i], a, i, reached, capacity, limit);
      if e.Some? {
        return;
      }
      EndedByNext(ranges, i);
      reached := ranges[i].End();
    }
    FinalizedAll(a.extents, p.store.extents, reached);
    return None;
  }

  lemma FinalizedNothing(s: seq<Extent>, ranges: seq<Extent>)
    ensures FinalizedTo(s, s, 0) && EndedBy(ranges, 0, 0)
  {
  }

  lemma FinalizedUpTo(s: seq<Extent>, t: seq<Extent>, ranges: seq<Extent>, i: nat, reached: nat)
    requires ValidSet(s) && ranges == RetryableExtents(s) && Separated(ranges) && i < |ranges|
    requires EndedBy(ranges, i, reached) && FinalizedTo(s, t, reached)
    ensures FinalizedTo(s, t, ranges[i].start)
  {
    hide ValidSet, FinalizedTo;
    SelectedOrder(ranges, i);
    FinalizedGap(s, t, i, reached, ranges[i].start);
  }

  lemma FinalizedAll(s: seq<Extent>, t: seq<Extent>, reached: nat)
    requires ValidSet(s) && EndedBy(RetryableExtents(s), |RetryableExtents(s)|, reached) && FinalizedTo(s, t, reached)
    ensures forall x: nat :: At(t, x) == Finalized(At(s, x))
  {
    hide ValidSet;
    forall x: nat ensures At(t, x) == Finalized(At(s, x)) {
      if reached <= x && Retryable(At(s, x)) {
        var k := SelectedSector(s, x);
        assert false;
      }
    }
  }
}
