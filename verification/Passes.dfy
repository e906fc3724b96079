/** The recovery passes (internal/platform/recovery_fast_pass.go, recovery_trim_pass.go, recovery_adaptive_pass.go,
    recovery_finalize.go) over a batched persistence and any device. */
module Passes {
  import opened Prelude
  import opened Transitions
  import opened Extents
  import opened Applying
  import opened Replaying
  import opened Media
  import opened RecoveryMap
  import opened WriteAhead
  import opened Persistence
  import opened Runs
  import opened Devices

  ghost function Now(p: RecoveryPersistence, d: Device): Moment
    reads p, p.store, p.medium, d
  {
    Moment(p.store.extents, p.medium.image.Working(), d.trace, p.ledger.calls, p.ledger.recovered, p.mayGiveUp)
  }

  /** What may be told the map without data: nothing claimed, nothing left unknown, nothing beyond the medium. */
  predicate HarmlessMark(e: Extent, capacity: nat) {
    !e.mark.ClaimsData() && e.mark.state != UNKNOWN && e.End() <= capacity
  }

  ghost predicate Harmless(marks: set<Extent>, capacity: nat) {
    forall e :: e in marks ==> HarmlessMark(e, capacity)
  }

  lemma HarmlessMore(marks: set<Extent>, e: Extent, marks': set<Extent>, capacity: nat)
    requires Harmless(marks, capacity) && HarmlessMark(e, capacity) && (marks' == marks || marks' == marks + {e})
    ensures Harmless(marks', capacity)
  {
  }

  /** What the passes keep: the persistence is in order, the map is sound for the medium, and no mark that came
      without data claims data. */
  ghost predicate Ready(p: RecoveryPersistence, capacity: nat)
    reads p, p.store, p.medium
  {
    && p.Valid()
    && Sound(p.store.extents, capacity)
    && Harmless(p.ledger.marks, capacity)
    && |p.ledger.calls| == |p.ledger.recovered|
  }

  function RetryableExtents(s: seq<Extent>): (r: seq<Extent>)
    ensures forall e :: e in r <==> e in s && IsRetryableState(e.mark.state)
  {
    if s == [] then []
    else RetryableExtents(s[..|s|-1]) + if IsRetryableState(s[|s|-1].mark.state) then [s[|s|-1]] else []
  }

  /** How far a block starting at a sector may reach: inside the extent found there, if it may be retried at all. */
  function Reach(s: seq<Extent>, lba: nat, want: nat): (n: nat)
    ensures n <= want
  {
    var found := ExtentAt(s, lba);
    if found.None? || !IsRetryableState(found.value.mark.state) then 0
    else Min(want, found.value.End() - lba)
  }

  /** Between two moments at most one read was made, of exactly this range, and no mark outside it changed. */
  ghost predicate OnlyBlock(a: Moment, b: Moment, lba: nat, sectors: nat) {
    && (b.trace == a.trace || (exists r :: b.trace == a.trace + [r] && r.start == lba && r.sectors == sectors))
    && forall x: nat :: !(lba <= x < lba + sectors) ==> At(b.extents, x) == At(a.extents, x)
  }

  // ----- the map accepts every mark of the passes

  predicate PassMark(m: Mark) {
    ValidMark(m) && (m.state == QUEUED || m.state == IO_ERROR || m.state == MISSING || m.state == READ_UNVERIFIED)
  }

  lemma Accepted(s: seq<Extent>, e: Extent, capacity: nat)
    requires Sound(s, capacity) && e.Valid() && e.End() <= capacity && PassMark(e.mark)
    requires forall x: nat :: e.Covers(x) && At(s, x).Some? ==> Retryable(At(s, x)) && At(s, x).value.attempts <= e.mark.attempts
    ensures Apply(s, e).Ok? && Sound(Apply(s, e).value, capacity) && Overridden(s, e, Apply(s, e).value) && Canonical(Apply(s, e).value)
  {
    forall x: nat | e.Covers(x) && At(s, x).Some? ensures MayReplace(At(s, x).value, e.mark) {
      MarkValid(s, x);
    }
    ApplyRefinesOverride(s, e, capacity);
  }

  lemma InExtent(s: seq<Extent>, lba: nat, sectors: nat)
    requires ValidSet(s) && ExtentAt(s, lba).Some? && lba + sectors <= ExtentAt(s, lba).value.End()
    ensures forall x: nat :: lba <= x < lba + sectors ==> At(s, x) == Some(ExtentAt(s, lba).value.mark)
  {
    var e := ExtentAt(s, lba).value;
    var i: nat :| i < |s| && s[i] == e;
    forall x: nat | lba <= x < lba + sectors ensures At(s, x) == Some(e.mark) {
      AtIndex(s, i, x);
    }
  }

  lemma BlockIsUnclaimed(s: seq<Extent>, lba: nat, sectors: nat, attempts: nat)
    requires ValidSet(s) && ExtentAt(s, lba).Some? && lba + sectors <= ExtentAt(s, lba).value.End()
    requires IsRetryableState(ExtentAt(s, lba).value.mark.state) && attempts == ExtentAt(s, lba).value.mark.attempts
    ensures Unclaimed(s, lba, sectors, attempts)
    ensures forall x: nat :: lba <= x < lba + sectors ==> Retryable(At(s, x)) && At(s, x).value.attempts == attempts
  {
    InExtent(s, lba, sectors);
  }

  lemma ExtentInside(s: seq<Extent>, lba: nat, capacity: nat)
    requires Sound(s, capacity) && ExtentAt(s, lba).Some?
    ensures ExtentAt(s, lba).value.End() <= capacity && ExtentAt(s, lba).value.Valid()
  {
    var i: nat :| i < |s| && s[i] == ExtentAt(s, lba).value;
  }

  // ----- one block

  /** Every sector of the read has the mark of its outcome. */
  ghost predicate Decided(s: seq<Extent>, r: Read) {
    forall x: nat :: r.Covers(x) ==> At(s, x).Some? && At(s, x).value == ReadMark(r.Full(), At(s, x).value.attempts)
  }

  lemma NowDecided(s: seq<Extent>, e: Extent, t: seq<Extent>, r: Read)
    requires Overridden(s, e, t) && e.start == r.start && e.sectors == r.sectors && e.mark == ReadMark(r.Full(), e.mark.attempts)
    ensures Decided(t, r)
  {
    hide At;
    forall x: nat | r.Covers(x) ensures At(t, x) == Some(e.mark) {
      assert At(t, x) == if e.Covers(x) then Some(e.mark) else At(s, x);
    }
  }

  /** The read of a block already marked queued, and the mark for its outcome (recovery_adaptive_pass.go:90-125). */
  method ReadQueued(p: RecoveryPersistence, d: Device, sectorSize: uint32, queued: Extent,
                    ghost a: Moment, ghost capacity: nat, ghost limit: nat) returns (e: Option<RunError>)
    requires Ready(p, capacity) && 0 < sectorSize && queued.Valid() && queued.End() <= capacity
    requires 0 < queued.mark.attempts <= limit && queued.mark == PlainMark(QUEUED, NO_CONFIDENCE, queued.mark.attempts)
    requires Unclaimed(a.extents, queued.start, queued.sectors, queued.mark.attempts - 1)
    requires Overridden(a.extents, queued, p.store.extents) && Canonical(p.store.extents)
    requires Now(p, d) == a.(extents := p.store.extents) && |a.calls| == |a.recovered|
    modifies p, p.store, p.medium, d
    ensures Ready(p, capacity)
    ensures Progress(a, Now(p, d), sectorSize, capacity, limit, e.None?)
    ensures OnlyBlock(a, Now(p, d), queued.start, queued.sectors)
    ensures exists r :: d.trace == a.trace + [r] && r.start == queued.start && r.sectors == queued.sectors
                        && (e.None? ==> Decided(p.store.extents, r))
    ensures Excused(e, p, d)
  {
    hide Progress, Apply, RecoveryPersistence.Valid, Sound, Overridden, UntouchedOutside, Carries, CallsProgress, Unclaimed,
         ByteCount, Harmless, OnlyBlock, Canonical, Decided, RecoveryPersistence.Failing;
    ghost var b, marks := Now(p, d), p.ledger.marks;
    var size, offset := ByteCount(queued.sectors, sectorSize), ByteCount(queued.start, sectorSize);
    var n, error, buffer := d.ReadAt(size, offset, queued.start, queued.sectors);
    ghost var r := d.trace[|d.trace|-1];
    if ReadSucceeded(n, size, error) {
      var good := queued.(mark := PlainMark(READ_UNVERIFIED, SINGLE_READ, queued.mark.attempts));
      QueuedAccepts(a.extents, queued, b.extents, good, capacity);
      var persisted := p.PersistRecovered(buffer, offset, good);
      BlockSucceeded(a, b, Now(p, d), r, queued, good, sectorSize, capacity, limit, persisted.None?);
      if persisted.Some? {
        SomeBytes(queued.sectors, sectorSize);
        return Some(PersistFailed(persisted.value));
      }
      NowDecided(b.extents, good, p.store.extents, r);
      return None;
    }
    BlockFailed(a, b, Now(p, d), r, queued, queued, sectorSize, capacity, limit, false);
    var stop := d.Cancelled();
    if stop {
      return Some(Canceled);
    }
    var fatal := FatalReadError(error);
    if fatal.Some? {
      return fatal;
    }
    var deferred := queued.(mark := queued.mark.(state := IO_ERROR));
    QueuedAccepts(a.extents, queued, b.extents, deferred, capacity);
    var applied := p.ApplyExtent(deferred);
    HarmlessMore(marks, deferred, p.ledger.marks, capacity);
    if applied.Some? {
      return Some(PersistFailed(applied.value));
    }
    BlockFailed(a, b, Now(p, d), r, queued, deferred, sectorSize, capacity, limit, true);
    NowDecided(b.extents, deferred, p.store.extents, r);
    return None;
  }

  /** attemptDeferredBlock (recovery_adaptive_pass.go:53): mark the block queued with one more attempt, read it once,
      and record the outcome. */
  method AttemptDeferredBlock(p: RecoveryPersistence, d: Device, sectorSize: uint32, lba: uint64, want: uint64,
                              ghost capacity: nat, ghost limit: nat) returns (e: Option<RunError>)
    requires Ready(p, capacity) && 0 < sectorSize
    requires Retryable(At(p.store.extents, lba)) ==> At(p.store.extents, lba).value.attempts < limit <= 0xFFFF
    modifies p, p.store, p.medium, d
    ensures Ready(p, capacity)
    ensures Progress(old(Now(p, d)), Now(p, d), sectorSize, capacity, limit, e.None?)
    ensures OnlyBlock(old(Now(p, d)), Now(p, d), lba, old(Reach(p.store.extents, lba, want)))
    ensures e.None? && old(Reach(p.store.extents, lba, want)) > 0 ==> d.trace != old(d.trace)
    ensures e.None? && d.trace != old(d.trace) ==> Decided(p.store.extents, d.trace[|d.trace|-1])
    ensures Excused(e, p, d)
  {
    hide Progress, Apply, RecoveryPersistence.Valid, Sound, Overridden, Unclaimed, Harmless, OnlyBlock, ExtentAt, At, Canonical, Decided;
    ghost var a := Now(p, d);
    ghost var marks := p.ledger.marks;
    NoProgress(a, sectorSize, capacity, limit);
    ProgressWeakens(a, a, sectorSize, capacity, limit, false);
    NoBlock(a, lba, Reach(p.store.extents, lba, want));
    var stop := d.Cancelled();
    if stop {
      return Some(Canceled);
    }
    var found, _ := LookupExtent(p.store.extents, lba);
    if found.None? || !IsRetryableState(found.value.mark.state) {
      return None;
    }
    var current := found.value;
    var sectors, most := want, current.End() - lba;
    if sectors > most {
      sectors := most;
    }
    if sectors == 0 {
      return None;
    }
    SoundParts(a.extents, capacity);
    BlockIsUnclaimed(a.extents, lba, sectors, current.mark.attempts);
    ExtentInside(a.extents, lba, capacity);
    var queued := Extent(lba, sectors, PlainMark(QUEUED, NO_CONFIDENCE, Wrap16(current.mark.attempts + 1)));
    Accepted(a.extents, queued, capacity);
    var applied := p.ApplyExtent(queued);
    HarmlessMore(marks, queued, p.ledger.marks, capacity);
    if applied.Some? {
      return Some(PersistFailed(applied.value));
    }
    e := ReadQueued(p, d, sectorSize, queued, a, capacity, limit);
  }

  lemma NoBlock(a: Moment, lba: nat, sectors: nat)
    ensures OnlyBlock(a, a, lba, sectors)
  {
  }

  lemma SoundParts(s: seq<Extent>, capacity: nat)
    requires Sound(s, capacity)
    ensures ValidSet(s) && Within(s, capacity) && capacity < TWO_32
  {
  }

  /** A queued block takes the mark of its outcome. */
  lemma QueuedAccepts(s: seq<Extent>, queued: Extent, t: seq<Extent>, e: Extent, capacity: nat)
    requires Overridden(s, queued, t) && Sound(t, capacity) && queued.mark.state == QUEUED
    requires e.start == queued.start && e.sectors == queued.sectors && e.mark.attempts == queued.mark.attempts
    requires e.Valid() && e.End() <= capacity && PassMark(e.mark)
    ensures Apply(t, e).Ok? && Sound(Apply(t, e).value, capacity) && Overridden(t, e, Apply(t, e).value) && Canonical(Apply(t, e).value)
  {
    hide Sound, Apply, Canonical;
    forall x: nat | e.Covers(x) && At(t, x).Some? ensures Retryable(At(t, x)) && At(t, x).value.attempts <= e.mark.attempts {
      assert At(t, x) == if queued.Covers(x) then Some(queued.mark) else At(s, x);
    }
    Accepted(t, e, capacity);
  }

  lemma OverriddenOutside(s: seq<Extent>, e: Extent, t: seq<Extent>, x: nat)
    requires Overridden(s, e, t) && !e.Covers(x)
    ensures At(t, x) == At(s, x)
  {
  }

  /** The block was read in full: persisting succeeded, or failed with the map still saying queued or already
      saying recovered. */
  lemma BlockSucceeded(a: Moment, b: Moment, c: Moment, r: Read, queued: Extent, good: Extent,
                       sectorSize: nat, capacity: nat, limit: nat, ok: bool)
    requires 0 < sectorSize && Aligned(r, sectorSize) && r.Full() && r.start == queued.start && r.sectors == queued.sectors
    requires good.start == queued.start && good.sectors == queued.sectors && queued.End() <= capacity
    requires 0 < queued.mark.attempts <= limit && good.mark.attempts == queued.mark.attempts
    requires queued.mark.state == QUEUED && good.mark == ReadMark(true, good.mark.attempts) && c.final == b.final
    requires Unclaimed(a.extents, queued.start, queued.sectors, queued.mark.attempts - 1)
    requires Overridden(a.extents, queued, b.extents) && b == a.(extents := b.extents) && |a.calls| == |a.recovered|
    requires c.trace == b.trace + [r] && UntouchedOutside(b.image, c.image, r.Call()) && Canonical(c.extents)
    requires ok || c.extents != b.extents ==> Overridden(b.extents, good, c.extents) && Carries(c.image, r.Call())
    requires ok ==> c.calls == b.calls + [r.Call()]
    requires (c.calls == b.calls && c.recovered == b.recovered) || (c.calls == b.calls + [r.Call()] && c.recovered == b.recovered + [good])
    ensures Progress(a, c, sectorSize, capacity, limit, ok)
    ensures OnlyBlock(a, c, queued.start, queued.sectors)
  {
    hide Progress, Overridden, Unclaimed, UntouchedOutside, Carries, CallsProgress, Canonical;
    if c.calls == b.calls {
      NothingHanded(a, c, r, ok);
    } else {
      OneHanded(a, c, r, good, ok);
    }
    if ok || c.extents != b.extents {
      OverriddenTwice(a.extents, queued, b.extents, good, c.extents);
      BlockRecorded(a, c, r, good, sectorSize, capacity, limit, ok);
    } else {
      BlockRecorded(a, c, r, queued, sectorSize, capacity, limit, ok);
    }
  }

  lemma BlockFailed(a: Moment, b: Moment, c: Moment, r: Read, queued: Extent, final: Extent,
                    sectorSize: nat, capacity: nat, limit: nat, live: bool)
    requires 0 < sectorSize && Aligned(r, sectorSize) && !r.Full() && r.start == queued.start && r.sectors == queued.sectors
    requires final.start == queued.start && final.sectors == queued.sectors && queued.End() <= capacity
    requires 0 < queued.mark.attempts <= limit && final.mark.attempts == queued.mark.attempts
    requires final.mark.state == QUEUED || final.mark.state == IO_ERROR
    requires live ==> final.mark == ReadMark(false, final.mark.attempts) && !Stops(r.error)
    requires Unclaimed(a.extents, queued.start, queued.sectors, queued.mark.attempts - 1)
    requires Overridden(a.extents, queued, b.extents) && b == a.(extents := b.extents) && |a.calls| == |a.recovered|
    requires c == b.(trace := b.trace + [r], extents := c.extents) && Canonical(c.extents)
    requires (c.extents == b.extents && final == queued) || Overridden(b.extents, final, c.extents)
    ensures Progress(a, c, sectorSize, capacity, limit, live)
    ensures OnlyBlock(a, c, queued.start, queued.sectors)
  {
    hide Progress, Overridden, Unclaimed, CallsProgress, Canonical;
    NothingHanded(a, c, r, live);
    if Overridden(b.extents, final, c.extents) {
      OverriddenTwice(a.extents, queued, b.extents, final, c.extents);
    }
    BlockRecorded(a, c, r, final, sectorSize, capacity, limit, live);
  }

  lemma BlockRecorded(a: Moment, c: Moment, r: Read, e: Extent, sectorSize: nat, capacity: nat, limit: nat, live: bool)
    requires 0 < sectorSize && Aligned(r, sectorSize) && r.start == e.start && r.sectors == e.sectors && e.End() <= capacity
    requires 0 < e.mark.attempts <= limit && e.mark.state != SKIPPED && e.mark.state != MISSING && a.final == c.final
    requires Unclaimed(a.extents, e.start, e.sectors, e.mark.attempts - 1)
    requires Overridden(a.extents, e, c.extents) && Canonical(c.extents) && c.trace == a.trace + [r] && ImageStep(a.image, c.image, r)
    requires e.mark.ClaimsData() ==> r.Full() && Carries(c.image, r.Call())
    requires live ==> e.mark == ReadMark(r.Full(), e.mark.attempts) && !Stops(r.error)
    requires CallsProgress(a, c, if r.Full() then [r] else [], live)
    ensures Progress(a, c, sectorSize, capacity, limit, live)
    ensures OnlyBlock(a, c, e.start, e.sectors)
  {
    hide Progress, Unclaimed, CallsProgress, Carries, ImageStep, Aligned, Canonical;
    Attempted(a, c, r, e, e.mark.attempts - 1, sectorSize, capacity, limit, live);
    forall x: nat | !(e.start <= x < e.start + e.sectors) ensures At(c.extents, x) == At(a.extents, x) {
      OverriddenOutside(a.extents, e, c.extents, x);
    }
  }

  // ----- the fast pass

  ghost predicate Covered(s: seq<Extent>, end: nat) {
    forall x: nat :: x < end ==> At(s, x).Some?
  }

  /** No sector was read twice, and only sectors the map did not yet cover were read. */
  ghost predicate NewSectorsOnce(a: Moment, b: Moment)
    requires |a.trace| <= |b.trace|
  {
    forall x: nat :: Count(Since(a, b), x) <= 1 && (Count(Since(a, b), x) > 0 ==> At(a.extents, x).None?)
  }

  ghost predicate Uncovered(s: seq<Extent>, start: nat, sectors: nat) {
    forall x: nat :: start <= x < start + sectors ==> At(s, x).None?
  }

  /** The gap-finding loop of the fast pass (recovery_fast_pass.go:41-50). */
  method ClipToGap(extents: seq<Extent>, lba: uint64, want: nat) returns (sectors: nat)
    requires ValidSet(extents) && At(extents, lba).None? && 0 < want
    ensures 0 < sectors <= want && Uncovered(extents, lba, sectors)
    ensures sectors < want ==> At(extents, lba + sectors).Some?
  {
    sectors := want;
    ValidSetIsSeparated(extents);
    AtNone(extents, lba);
    for i := 0 to |extents|
      invariant sectors == want
      invariant forall k :: 0 <= k < i ==> extents[k].End() <= lba || lba + want <= extents[k].start
    {
      var extent := extents[i];
      assert !extent.Covers(lba);
      if extent.start > lba && extent.start - lba < sectors {
        sectors := extent.start - lba;
        AtIndex(extents, i, extent.start);
        forall x: nat | lba <= x < lba + sectors ensures At(extents, x).None? {
          AtNone(extents, x);
        }
        return;
      }
    }
    forall x: nat | lba <= x < lba + sectors ensures At(extents, x).None? {
      AtNone(extents, x);
    }
  }

  lemma UncoveredIsUnclaimed(s: seq<Extent>, start: nat, sectors: nat)
    requires Uncovered(s, start, sectors)
    ensures Unclaimed(s, start, sectors, 0)
  {
  }

  /** One block of the fast pass from reading it to recording the outcome (recovery_fast_pass.go:55-92). */
  method AcquireBlock(p: RecoveryPersistence, d: Device, sectorSize: uint32, lba: uint64, sectors: uint32,
                      ghost capacity: nat, ghost limit: nat) returns (e: Option<RunError>)
    requires Ready(p, capacity) && 0 < sectorSize && 0 < limit
    requires 0 < sectors && lba + sectors <= capacity && Uncovered(p.store.extents, lba, sectors)
    modifies p, p.store, p.medium, d
    ensures Ready(p, capacity)
    ensures Progress(old(Now(p, d)), Now(p, d), sectorSize, capacity, limit, e.None?)
    ensures exists r :: d.trace == old(d.trace) + [r] && r.start == lba && r.sectors == sectors
    ensures e.None? ==> Acquired(old(p.store.extents), p.store.extents, lba, sectors)
    ensures Excused(e, p, d)
  {
    hide Progress, Apply, RecoveryPersistence.Valid, Sound, Overridden, UntouchedOutside, Carries, CallsProgress, Unclaimed,
         ByteCount, Harmless, At, Uncovered, Acquired, Canonical, RecoveryPersistence.Failing;
    ghost var b, marks := Now(p, d), p.ledger.marks;
    SoundParts(b.extents, capacity);
    UncoveredIsUnclaimed(b.extents, lba, sectors);
    var size, offset := ByteCount(sectors, sectorSize), ByteCount(lba, sectorSize);
    var n, error, buffer := d.ReadAt(size, offset, lba, sectors);
    ghost var r := d.trace[|d.trace|-1];
    if ReadSucceeded(n, size, error) {
      var good := Extent(lba, sectors, PlainMark(READ_UNVERIFIED, SINGLE_READ, 1));
      UncoveredAccepts(b.extents, good, capacity);
      var persisted := p.PersistRecovered(buffer, offset, good);
      FastSucceeded(b, Now(p, d), r, good, sectorSize, capacity, limit, persisted.None?);
      if persisted.Some? {
        SomeBytes(sectors, sectorSize);
        return Some(PersistFailed(persisted.value));
      }
      NowAcquired(b.extents, good, p.store.extents);
      return None;
    }
    var deferred := Extent(lba, sectors, PlainMark(IO_ERROR, NO_CONFIDENCE, 1));
    FastFailed(b, Now(p, d), r, deferred, sectorSize, capacity, limit, false);
    var stop := d.Cancelled();
    if stop {
      return Some(Canceled);
    }
    var fatal := FatalReadError(error);
    if fatal.Some? {
      return fatal;
    }
    UncoveredAccepts(b.extents, deferred, capacity);
    var applied := p.ApplyExtent(deferred);
    HarmlessMore(marks, deferred, p.ledger.marks, capacity);
    if applied.Some? {
      return Some(PersistFailed(applied.value));
    }
    FastFailed(b, Now(p, d), r, deferred, sectorSize, capacity, limit, true);
    NowAcquired(b.extents, deferred, p.store.extents);
    return None;
  }

  /** What one read leaves behind: a first, unverified copy, or an error. */
  predicate FirstMark(m: Option<Mark>) {
    m == Some(PlainMark(READ_UNVERIFIED, SINGLE_READ, 1)) || m == Some(PlainMark(IO_ERROR, NO_CONFIDENCE, 1))
  }

  /** The block has its first marks, and no other sector has changed. */
  ghost predicate Acquired(s: seq<Extent>, t: seq<Extent>, start: nat, sectors: nat) {
    forall x: nat :: if start <= x < start + sectors then FirstMark(At(t, x)) else At(t, x) == At(s, x)
  }

  lemma NowAcquired(s: seq<Extent>, e: Extent, t: seq<Extent>)
    requires Overridden(s, e, t) && FirstMark(Some(e.mark))
    ensures Acquired(s, t, e.start, e.sectors)
  {
    hide At;
    forall x: nat ensures if e.start <= x < e.start + e.sectors then FirstMark(At(t, x)) else At(t, x) == At(s, x) {
      assert At(t, x) == if e.Covers(x) then Some(e.mark) else At(s, x);
    }
  }

  /** Up to `end`, sectors the map did not cover have their first marks; nothing else has changed. */
  ghost predicate AcquiredTo(s: seq<Extent>, t: seq<Extent>, end: nat) {
    forall x: nat :: if x < end && At(s, x).None? then FirstMark(At(t, x)) else At(t, x) == At(s, x)
  }

  lemma AcquiredNothing(s: seq<Extent>)
    ensures AcquiredTo(s, s, 0)
  {
  }

  lemma AcquiredFurther(s: seq<Extent>, t: seq<Extent>, u: seq<Extent>, lba: nat, sectors: nat, end: nat)
    requires AcquiredTo(s, t, lba) && Acquired(t, u, lba, sectors) && Uncovered(t, lba, sectors) && end == lba + sectors
    ensures AcquiredTo(s, u, end)
  {
    hide At;
    forall x: nat ensures if x < end && At(s, x).None? then FirstMark(At(u, x)) else At(u, x) == At(s, x) {
      assert if x < lba && At(s, x).None? then FirstMark(At(t, x)) else At(t, x) == At(s, x);
      assert if lba <= x < lba + sectors then FirstMark(At(u, x)) else At(u, x) == At(t, x);
      assert lba <= x < lba + sectors ==> At(t, x).None?;
    }
  }

  /** A stretch the map already covered is passed over. */
  lemma AcquiredOver(s: seq<Extent>, t: seq<Extent>, lba: nat, end: nat)
    requires AcquiredTo(s, t, lba) && lba <= end && forall x: nat :: lba <= x < end ==> At(t, x).Some?
    ensures AcquiredTo(s, t, end)
  {
    hide At;
    forall x: nat ensures if x < end && At(s, x).None? then FirstMark(At(t, x)) else At(t, x) == At(s, x) {
      assert if x < lba && At(s, x).None? then FirstMark(At(t, x)) else At(t, x) == At(s, x);
      assert lba <= x < end ==> At(t, x).Some?;
    }
  }

  lemma AcquiredCovers(s: seq<Extent>, t: seq<Extent>, end: nat)
    requires AcquiredTo(s, t, end)
    ensures Covered(t, end)
  {
    hide At;
    forall x: nat | x < end ensures At(t, x).Some? {
      assert if x < end && At(s, x).None? then FirstMark(At(t, x)) else At(t, x) == At(s, x);
    }
  }

  lemma UncoveredAccepts(s: seq<Extent>, e: Extent, capacity: nat)
    requires Sound(s, capacity) && e.Valid() && e.End() <= capacity && PassMark(e.mark)
    requires Uncovered(s, e.start, e.sectors)
    ensures Apply(s, e).Ok? && Sound(Apply(s, e).value, capacity) && Overridden(s, e, Apply(s, e).value) && Canonical(Apply(s, e).value)
  {
    hide Sound, Apply, Canonical;
    Accepted(s, e, capacity);
  }

  lemma FastSucceeded(b: Moment, c: Moment, r: Read, good: Extent, sectorSize: nat, capacity: nat, limit: nat, ok: bool)
    requires 0 < sectorSize && Aligned(r, sectorSize) && r.Full() && r.start == good.start && r.sectors == good.sectors
    requires good.End() <= capacity && 0 < limit && good.mark == PlainMark(READ_UNVERIFIED, SINGLE_READ, 1)
    requires Unclaimed(b.extents, good.start, good.sectors, 0) && |b.calls| == |b.recovered|
    requires c.trace == b.trace + [r] && UntouchedOutside(b.image, c.image, r.Call()) && c.final == b.final
    requires ok || c.extents != b.extents ==> Overridden(b.extents, good, c.extents) && Canonical(c.extents) && Carries(c.image, r.Call())
    requires ok ==> c.calls == b.calls + [r.Call()]
    requires (c.calls == b.calls && c.recovered == b.recovered) || (c.calls == b.calls + [r.Call()] && c.recovered == b.recovered + [good])
    ensures Progress(b, c, sectorSize, capacity, limit, ok)
  {
    hide Progress, Overridden, Unclaimed, UntouchedOutside, Carries, CallsProgress, Aligned, Canonical;
    if c.calls == b.calls {
      NothingHanded(b, c, r, ok);
    } else {
      OneHanded(b, c, r, good, ok);
    }
    if ok || c.extents != b.extents {
      Attempted(b, c, r, good, 0, sectorSize, capacity, limit, ok);
    } else {
      AttemptLost(b, c, r, 0, sectorSize, capacity, limit);
    }
  }

  lemma FastFailed(b: Moment, c: Moment, r: Read, deferred: Extent, sectorSize: nat, capacity: nat, limit: nat, live: bool)
    requires 0 < sectorSize && Aligned(r, sectorSize) && !r.Full() && r.start == deferred.start && r.sectors == deferred.sectors
    requires deferred.End() <= capacity && 0 < limit && deferred.mark == PlainMark(IO_ERROR, NO_CONFIDENCE, 1)
    requires Unclaimed(b.extents, deferred.start, deferred.sectors, 0) && |b.calls| == |b.recovered|
    requires c == b.(trace := b.trace + [r], extents := c.extents)
    requires if live then Overridden(b.extents, deferred, c.extents) && Canonical(c.extents) && !Stops(r.error) else c.extents == b.extents
    ensures Progress(b, c, sectorSize, capacity, limit, live)
  {
    hide Progress, Overridden, Unclaimed, CallsProgress, Aligned, Canonical;
    NothingHanded(b, c, r, live);
    if live {
      Attempted(b, c, r, deferred, 0, sectorSize, capacity, limit, live);
    } else {
      AttemptLost(b, c, r, 0, sectorSize, capacity, limit);
    }
  }

  lemma NewSectorsStep(a: Moment, b: Moment, c: Moment, r: Read, sectorSize: nat, capacity: nat, limit: nat)
    requires Progress(a, b, sectorSize, capacity, limit, true) && NewSectorsOnce(a, b)
    requires c.trace == b.trace + [r] && Uncovered(b.extents, r.start, r.sectors)
    ensures NewSectorsOnce(a, c)
  {
    hide Count, Fulls, CallsProgress, SameBytes, HoldsRead, Aligned;
    assert Since(a, c) == Since(a, b) + [r];
    forall x: nat ensures Count(Since(a, c), x) <= 1 && (Count(Since(a, c), x) > 0 ==> At(a.extents, x).None?) {
      CountConcat(Since(a, b), [r], x);
      CountOne(r, x);
      assert SectorProgress(a, b, Since(a, b), x, sectorSize, limit, true);
      if r.Covers(x) {
        assert At(b.extents, x).None?;
      }
    }
  }

  lemma CoveredStays(b: Moment, c: Moment, end: nat, sectorSize: nat, capacity: nat, limit: nat, live: bool)
    requires Progress(b, c, sectorSize, capacity, limit, live) && Covered(b.extents, end)
    ensures Covered(c.extents, end)
  {
    hide Count, Fulls, CallsProgress, SameBytes, HoldsRead, Aligned;
    forall x: nat | x < end ensures At(c.extents, x).Some? {
      assert SectorProgress(b, c, Since(b, c), x, sectorSize, limit, live);
    }
  }

  /** A read of the pass takes a whole block, or as much of one as there is before the medium ends or the map is covered. */
  ghost predicate GapBlocks(a: Moment, trace: seq<Read>, block: nat, capacity: nat) {
    forall i :: |a.trace| <= i < |trace| ==>
      var end := trace[i].start + trace[i].sectors;
      trace[i].sectors <= block && (trace[i].sectors == block || end == capacity || At(a.extents, end).Some?)
  }

  lemma GapBlocksNothing(a: Moment, block: nat, capacity: nat)
    ensures GapBlocks(a, a.trace, block, capacity)
  {
  }

  lemma GapBlocksStep(a: Moment, b: Moment, trace: seq<Read>, lba: nat, sectors: nat, want: nat, block: nat, capacity: nat)
    requires GapBlocks(a, b.trace, block, capacity) && AcquiredTo(a.extents, b.extents, lba)
    requires exists r :: trace == b.trace + [r] && r.start == lba && r.sectors == sectors
    requires lba < capacity && want == Min(block, capacity - lba) && sectors <= want
    requires sectors < want ==> At(b.extents, lba + sectors).Some?
    ensures GapBlocks(a, trace, block, capacity)
  {
    hide At, AcquiredTo;
    AcquiredBeyond(a.extents, b.extents, lba, lba + sectors);
  }

  lemma AcquiredBeyond(s: seq<Extent>, t: seq<Extent>, end: nat, x: nat)
    requires AcquiredTo(s, t, end) && end <= x
    ensures At(t, x) == At(s, x)
  {
    hide At;
  }

  /** The next block of the pass (recovery_fast_pass.go:37-92). */
  method AcquireGap(p: RecoveryPersistence, d: Device, sectorSize: uint32, capacity: uint64, blockSectors: uint32, lba: uint64,
                    ghost a: Moment, ghost limit: nat) returns (e: Option<RunError>, sectors: nat)
    requires Ready(p, capacity) && 0 < sectorSize && 0 < limit && 0 < blockSectors
    requires lba < capacity && At(p.store.extents, lba).None?
    requires Progress(a, Now(p, d), sectorSize, capacity, limit, true) && |a.trace| <= |d.trace|
    requires NewSectorsOnce(a, Now(p, d)) && GapBlocks(a, d.trace, blockSectors, capacity) && AcquiredTo(a.extents, p.store.extents, lba)
    modifies p, p.store, p.medium, d
    ensures Ready(p, capacity) && 0 < sectors && lba + sectors <= capacity
    ensures Progress(a, Now(p, d), sectorSize, capacity, limit, e.None?) && |a.trace| <= |d.trace|
    ensures NewSectorsOnce(a, Now(p, d)) && GapBlocks(a, d.trace, blockSectors, capacity)
    ensures e.None? ==> AcquiredTo(a.extents, p.store.extents, lba + sectors)
    ensures Excused(e, p, d)
  {
    hide Progress, RecoveryPersistence.Valid, Sound, Harmless, At, Uncovered, ExtentAt, NewSectorsOnce, AcquiredTo, Acquired, GapBlocks, Excused;
    ghost var b := Now(p, d);
    SoundParts(b.extents, capacity);
    sectors := blockSectors;
    if capacity - lba < sectors {
      sectors := capacity - lba;
    }
    ghost var want := sectors;
    sectors := ClipToGap(p.store.extents, lba, sectors);
    e := AcquireBlock(p, d, sectorSize, lba, sectors, capacity, limit);
    ProgressThen(a, b, Now(p, d), sectorSize, capacity, limit, e.None?);
    GapBlocksStep(a, b, d.trace, lba, sectors, want, blockSectors, capacity);
    NewSectorsStep(a, b, Now(p, d), d.trace[|d.trace|-1], sectorSize, capacity, limit);
    if e.None? {
      AcquiredFurther(a.extents, b.extents, p.store.extents, lba, sectors, lba + sectors);
    }
  }

  /** runFastAcquisitionPass (recovery_fast_pass.go:12): one read for every stretch the map does not cover. */
  method RunFastAcquisitionPass(p: RecoveryPersistence, d: Device, sectorSize: uint32, capacity: uint64, blockSectors: uint32,
                                ghost limit: nat) returns (e: Option<RunError>)
    requires Ready(p, capacity) && 0 < sectorSize && 0 < limit
    modifies p, p.store, p.medium, d
    ensures Ready(p, capacity)
    ensures Progress(old(Now(p, d)), Now(p, d), sectorSize, capacity, limit, e.None?)
    ensures e == Some(BadPolicy) <==> blockSectors == 0
    ensures NewSectorsOnce(old(Now(p, d)), Now(p, d)) && GapBlocks(old(Now(p, d)), d.trace, blockSectors, capacity)
    ensures e.None? ==> AcquiredTo(old(p.store.extents), p.store.extents, capacity)
    ensures e != Some(BadPolicy) ==> Excused(e, p, d)
  {
    hide Progress, RecoveryPersistence.Valid, Sound, Harmless, At, Uncovered, ExtentAt, NewSectorsOnce, AcquiredTo, Acquired, GapBlocks;
    ghost var a := Now(p, d);
    NoProgress(a, sectorSize, capacity, limit);
    ProgressWeakens(a, a, sectorSize, capacity, limit, false);
    NothingRead(a);
    GapBlocksNothing(a, blockSectors, capacity);
    AcquiredNothing(a.extents);
    if blockSectors == 0 {
      return Some(BadPolicy);
    }
    var lba := 0;
    while lba < capacity
      invariant 0 <= lba <= capacity
      invariant Ready(p, capacity)
      invariant Progress(a, Now(p, d), sectorSize, capacity, limit, true) && |a.trace| <= |d.trace|
      invariant NewSectorsOnce(a, Now(p, d)) && GapBlocks(a, d.trace, blockSectors, capacity)
      invariant AcquiredTo(a.extents, p.store.extents, lba)
      decreases capacity - lba
    {
      ghost var b := Now(p, d);
      ProgressWeakens(a, b, sectorSize, capacity, limit, false);
      var stop := d.Cancelled();
      if stop {
        return Some(Canceled);
      }
      SoundParts(b.extents, capacity);
      var extents := p.store.extents;
      var extent, _ := LookupExtent(extents, lba);
      if extent.Some? {
        ExtentInside(extents, lba, capacity);
        InExtent(extents, lba, extent.value.End() - lba);
        AcquiredOver(a.extents, extents, lba, extent.value.End());
        lba := extent.value.End();
        continue;
      }
      var sectors;
      e, sectors := AcquireGap(p, d, sectorSize, capacity, blockSectors, lba, a, limit);
      if e.Some? {
        return;
      }
      lba := lba + sectors;
    }
    return None;
  }

  lemma NothingRead(a: Moment)
    ensures NewSectorsOnce(a, a)
  {
    assert Since(a, a) == [];
  }
}
