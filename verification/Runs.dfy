/** What any stretch of a recovery run does to the map, the image and the device, as a transitive relation between
    two moments of the run. The passes (internal/platform/recovery_*_pass.go) are proved to move along it. */
module Runs {
  import opened Prelude
  import opened Transitions
  import opened Extents
  import opened Applying
  import opened Media
  import opened Persistence

  datatype ReadError = EndOfFile | StopRequested | ClosedPipe | UnexpectedEnd | Permission | NotExist | SourceLost | OtherError

  /** One read of a range of sectors: what the device said, a count and perhaps an error, and what is in the buffer. */
  datatype Read = Read(start: nat, sectors: nat, offset: nat, count: int, error: Option<ReadError>, buffer: bytes) {
    predicate Covers(lba: nat) {
      start <= lba < start + sectors
    }

    /** The device filled the whole buffer and at most met the end of the medium behind it. */
    predicate Full() {
      count == |buffer| && (error.None? || error.value == EndOfFile)
    }

    function Call(): Write {
      Write(offset, buffer)
    }
  }

  /** A moment of a run: the working extents, the image as a reader sees it, the reads made so far, the data handed to the
      image with the extents that claim it, and whether the run may give sectors up. */
  datatype Moment = Moment(extents: seq<Extent>, image: Contents, trace: seq<Read>, calls: seq<Write>, recovered: seq<Extent>, final: bool)

  // ----- bytes and sectors

  function SectorOf(b: nat, sectorSize: nat): nat
    requires 0 < sectorSize
  {
    b / sectorSize
  }

  function ByteCount(sectors: nat, sectorSize: nat): nat {
    sectors * sectorSize
  }

  lemma SomeBytes(sectors: nat, sectorSize: nat)
    requires 0 < sectors && 0 < sectorSize
    ensures 0 < ByteCount(sectors, sectorSize)
  {
  }

  ghost predicate Aligned(r: Read, sectorSize: nat) {
    && 0 < r.sectors && r.offset == ByteCount(r.start, sectorSize)
    && |r.buffer| == ByteCount(r.sectors, sectorSize)
  }

  /** All bytes of the range were delivered, and no error but the end of the medium was reported. */
  predicate Delivered(r: Read, sectorSize: nat) {
    r.count == ByteCount(r.sectors, sectorSize) && r.error in {None, Some(EndOfFile)}
  }

  /** The errors that end a run; after any other the block is put off. */
  predicate Stops(error: Option<ReadError>) {
    error in {Some(StopRequested), Some(Permission), Some(NotExist), Some(SourceLost)}
  }

  ghost predicate NeverStopped(trace: seq<Read>) {
    forall i :: 0 <= i < |trace| ==> !Stops(trace[i].error)
  }

  lemma SectorBounds(b: nat, sectorSize: nat, start: nat)
    requires 0 < sectorSize
    ensures start * sectorSize <= b <==> start <= SectorOf(b, sectorSize)
  {
    var q, m := b / sectorSize, b % sectorSize;
    assert b == sectorSize * q + m && 0 <= m < sectorSize;
    if start <= q {
      assert start * sectorSize <= q * sectorSize;
    } else {
      assert (q + 1) * sectorSize <= start * sectorSize;
    }
  }

  /** The bytes of a full read are those of its sectors. */
  lemma CallCovers(r: Read, sectorSize: nat, b: nat)
    requires 0 < sectorSize && Aligned(r, sectorSize) && r.Full()
    ensures r.Call().Covers(b) <==> r.Covers(SectorOf(b, sectorSize))
  {
    hide SectorOf;
    SectorBounds(b, sectorSize, r.start);
    SectorBounds(b, sectorSize, r.start + r.sectors);
    assert (r.start + r.sectors) * sectorSize == r.start * sectorSize + r.sectors * sectorSize;
  }

  ghost predicate SameBytes(a: Contents, b: Contents, lba: nat, sectorSize: nat)
    requires 0 < sectorSize
  {
    forall x: nat :: SectorOf(x, sectorSize) == lba ==> (x in a <==> x in b) && (x in a ==> a[x] == b[x])
  }

  /** The image holds, for this sector, what the read delivered for it. */
  ghost predicate HoldsRead(image: Contents, r: Read, lba: nat, sectorSize: nat)
    requires 0 < sectorSize
  {
    r.Full() && forall x: nat :: SectorOf(x, sectorSize) == lba ==>
      r.Call().Covers(x) && x in image && image[x] == r.buffer[x - r.offset]
  }

  // ----- counting reads

  function Count(trace: seq<Read>, lba: nat): (n: nat)
    ensures n <= |trace|
  {
    if trace == [] then 0
    else Count(trace[..|trace|-1], lba) + if trace[|trace|-1].Covers(lba) then 1 else 0
  }

  /** The reads that delivered everything, in order. */
  function Fulls(trace: seq<Read>): (fulls: seq<Read>)
    ensures |fulls| <= |trace| && forall i :: 0 <= i < |fulls| ==> fulls[i].Full() && fulls[i] in trace
  {
    if trace == [] then []
    else Fulls(trace[..|trace|-1]) + if trace[|trace|-1].Full() then [trace[|trace|-1]] else []
  }

  lemma {:induction false} CountConcat(a: seq<Read>, b: seq<Read>, lba: nat)
    ensures Count(a + b, lba) == Count(a, lba) + Count(b, lba)
  {
    if b == [] {
      assert a + b == a;
    } else {
      assert (a + b)[..|a + b|-1] == a + b[..|b|-1];
      CountConcat(a, b[..|b|-1], lba);
    }
  }

  lemma CountOne(r: Read, lba: nat)
    ensures Count([r], lba) == if r.Covers(lba) then 1 else 0
  {
    assert [r][..0] == [];
  }

  lemma {:induction false} FullsConcat(a: seq<Read>, b: seq<Read>)
    ensures Fulls(a + b) == Fulls(a) + Fulls(b)
  {
    if b == [] {
      assert a + b == a;
    } else {
      assert (a + b)[..|a + b|-1] == a + b[..|b|-1];
      FullsConcat(a, b[..|b|-1]);
      var last := if b[|b|-1].Full() then [b[|b|-1]] else [];
      Associative(Fulls(a), Fulls(b[..|b|-1]), last);
    }
  }

  lemma FullsOne(r: Read)
    ensures Fulls([r]) == if r.Full() then [r] else []
  {
    assert [r][..0] == [];
  }

  lemma {:induction false} FullsAmongReads(trace: seq<Read>, lba: nat)
    ensures Count(Fulls(trace), lba) <= Count(trace, lba)
  {
    if trace != [] {
      var p, r := trace[..|trace|-1], trace[|trace|-1];
      FullsAmongReads(p, lba);
      CountConcat(Fulls(p), if r.Full() then [r] else [], lba);
      CountOne(r, lba);
    }
  }

  lemma {:induction false} CountedOnce(trace: seq<Read>, lba: nat, i: nat)
    requires i < |trace| && trace[i].Covers(lba)
    ensures Count(trace, lba) >= 1
  {
    if i < |trace| - 1 {
      CountedOnce(trace[..|trace|-1], lba, i);
    }
  }

  lemma CountedTwice(trace: seq<Read>, lba: nat, i: nat, k: nat)
    requires i < k < |trace| && trace[i].Covers(lba) && trace[k].Covers(lba)
    ensures Count(trace, lba) >= 2
  {
    CountConcat(trace[..k], trace[k..], lba);
    assert trace[..k] + trace[k..] == trace;
    assert trace[..k][i] == trace[i];
    CountedOnce(trace[..k], lba, i);
    CountedOnce(trace[k..], lba, 0);
  }

  // ----- progress of one sector

  function Attempts(m: Option<Mark>): nat {
    if m.Some? then m.value.attempts else 0
  }

  function Remaining(m: Option<Mark>, limit: nat): nat {
    if Attempts(m) < limit then limit - Attempts(m) else 0
  }

  function Times(b: bool): nat {
    if b then 1 else 0
  }

  /** A sector over a stretch of a run, `reads` of which touched it, `fulls` of these delivering it. The map counts
      the reads; nobody reads a sector beyond the limit or once it is claimed; a new claim stands on one full read. A
      stretch that ended in an error may have made a last read the map does not account for. */
  ghost predicate MarkProgress(m: Option<Mark>, m': Option<Mark>, touched: nat, fulls: nat, limit: nat, live: bool) {
    && (m.Some? ==> m'.Some?)
    && Attempts(m) <= Attempts(m') <= Attempts(m) + touched
    && Attempts(m') <= Max(Attempts(m), limit)
    && Attempts(m) + touched <= Attempts(m') + Times(!live)
    && touched <= Remaining(m, limit)
    && fulls <= 1 && fulls <= touched
    && (Claims(m) ==> m' == m && touched == 0)
    && (Claims(m') && !Claims(m) ==> fulls == 1)
    && (live && fulls == 1 ==> Claims(m'))
    && (m'.Some? && m'.value.state == SKIPPED ==> m' == m)
  }

  lemma MarkProgressThen(m: Option<Mark>, m': Option<Mark>, m'': Option<Mark>, r1: nat, f1: nat, r2: nat, f2: nat, limit: nat, live: bool)
    requires MarkProgress(m, m', r1, f1, limit, true) && MarkProgress(m', m'', r2, f2, limit, live)
    ensures MarkProgress(m, m'', r1 + r2, f1 + f2, limit, live)
  {
  }

  /** isRetryableState (recovery_retry.go:40). */
  predicate IsRetryableState(state: uint8) {
    state == UNKNOWN || state == QUEUED || state == IO_ERROR || state == MISSING
  }

  predicate Retryable(m: Option<Mark>) {
    m.Some? && IsRetryableState(m.value.state)
  }

  /** What finalization makes of a mark. */
  function Finalized(m: Option<Mark>): Option<Mark> {
    if Retryable(m) then Some(m.value.(state := MISSING, confidence := NO_CONFIDENCE)) else m
  }

  /** The mark of a read that counts as this attempt: a first copy when it delivered the sector, an error otherwise. */
  function ReadMark(full: bool, attempts: uint16): Mark {
    if full then PlainMark(READ_UNVERIFIED, SINGLE_READ, attempts) else PlainMark(IO_ERROR, NO_CONFIDENCE, attempts)
  }

  /** What a stretch leaves of a sector: the mark it had if it was not read, the mark of its reads if it was, and either
      of them finalized in a run that may give sectors up. A stretch that ended in an error may leave the last block
      queued. */
  ghost predicate Outcome(m: Option<Mark>, m': Option<Mark>, touched: nat, fulls: nat, final: bool, live: bool) {
    && (touched == 0 ==> m' == m || (final && m' == Finalized(m)))
    && (live && touched > 0 ==>
          m'.Some? && (m' == Some(ReadMark(fulls > 0, m'.value.attempts))
                       || (final && m' == Finalized(Some(ReadMark(fulls > 0, m'.value.attempts))))))
    && (!final && m'.Some? && m'.value.state == MISSING ==> m.Some? && m.value.state == MISSING)
  }

  lemma OutcomeThen(m: Option<Mark>, m': Option<Mark>, m'': Option<Mark>, r1: nat, f1: nat, r2: nat, f2: nat, limit: nat, final: bool, live: bool)
    requires MarkProgress(m, m', r1, f1, limit, true) && MarkProgress(m', m'', r2, f2, limit, live)
    requires Outcome(m, m', r1, f1, final, true) && Outcome(m', m'', r2, f2, final, live)
    ensures Outcome(m, m'', r1 + r2, f1 + f2, final, live)
  {
  }

  ghost predicate SectorProgress(a: Moment, b: Moment, trace: seq<Read>, lba: nat, sectorSize: nat, limit: nat, live: bool)
    requires 0 < sectorSize
  {
    && MarkProgress(At(a.extents, lba), At(b.extents, lba), Count(trace, lba), Count(Fulls(trace), lba), limit, live)
    && Outcome(At(a.extents, lba), At(b.extents, lba), Count(trace, lba), Count(Fulls(trace), lba), b.final, live)
    && (Count(Fulls(trace), lba) == 0 ==> SameBytes(a.image, b.image, lba, sectorSize))
    && (Claims(At(b.extents, lba)) ==>
          forall i :: 0 <= i < |Fulls(trace)| && Fulls(trace)[i].Covers(lba) ==> HoldsRead(b.image, Fulls(trace)[i], lba, sectorSize))
  }

  /** A call hands over the data of a full read under an extent with the range of the read, which claims it. */
  ghost predicate Stands(r: Read, call: Write, e: Extent) {
    r.Full() && r.Call() == call && e.start == r.start && e.sectors == r.sectors && e.mark.ClaimsData()
  }

  /** The calls made are the full reads in order; only the last one before an error may be missing. */
  ghost predicate CallsProgress(a: Moment, b: Moment, fulls: seq<Read>, live: bool) {
    && a.calls <= b.calls && a.recovered <= b.recovered
    && |a.calls| == |a.recovered| && |b.calls| == |b.recovered|
    && |b.calls| - |a.calls| <= |fulls| <= |b.calls| - |a.calls| + (if live then 0 else 1)
    && forall j :: |a.calls| <= j < |b.calls| ==> Stands(fulls[j - |a.calls|], b.calls[j], b.recovered[j])
  }

  function Since(a: Moment, b: Moment): seq<Read>
    requires |a.trace| <= |b.trace|
  {
    b.trace[|a.trace|..]
  }

  ghost predicate ReadsFit(trace: seq<Read>, sectorSize: nat, capacity: nat) {
    forall i :: 0 <= i < |trace| ==> Aligned(trace[i], sectorSize) && trace[i].start + trace[i].sectors <= capacity
  }

  ghost predicate Progress(a: Moment, b: Moment, sectorSize: nat, capacity: nat, limit: nat, live: bool) {
    && 0 < sectorSize
    && a.trace <= b.trace && a.final == b.final
    && (live ==> NeverStopped(Since(a, b)))
    && ReadsFit(Since(a, b), sectorSize, capacity)
    && CallsProgress(a, b, Fulls(Since(a, b)), live)
    && (Canonical(a.extents) ==> Canonical(b.extents))
    && forall lba: nat :: SectorProgress(a, b, Since(a, b), lba, sectorSize, limit, live)
  }

  // ----- transitivity

  lemma NoProgress(a: Moment, sectorSize: nat, capacity: nat, limit: nat)
    requires 0 < sectorSize && |a.calls| == |a.recovered|
    ensures Progress(a, a, sectorSize, capacity, limit, true)
  {
    assert Since(a, a) == [];
    forall lba: nat ensures SectorProgress(a, a, [], lba, sectorSize, limit, true) {
    }
  }

  lemma SectorProgressThen(a: Moment, b: Moment, c: Moment, r1: seq<Read>, r2: seq<Read>, lba: nat, sectorSize: nat, limit: nat, live: bool)
    requires 0 < sectorSize && b.final == c.final
    requires SectorProgress(a, b, r1, lba, sectorSize, limit, true) && SectorProgress(b, c, r2, lba, sectorSize, limit, live)
    ensures SectorProgress(a, c, r1 + r2, lba, sectorSize, limit, live)
  {
    hide Count, Fulls, SectorOf, Claims, Outcome;
    CountConcat(r1, r2, lba);
    FullsConcat(r1, r2);
    CountConcat(Fulls(r1), Fulls(r2), lba);
    MarkProgressThen(At(a.extents, lba), At(b.extents, lba), At(c.extents, lba), Count(r1, lba), Count(Fulls(r1), lba),
                     Count(r2, lba), Count(Fulls(r2), lba), limit, live);
    OutcomeThen(At(a.extents, lba), At(b.extents, lba), At(c.extents, lba), Count(r1, lba), Count(Fulls(r1), lba),
                Count(r2, lba), Count(Fulls(r2), lba), limit, c.final, live);
    if Claims(At(c.extents, lba)) {
      HoldsThen(a, b, c, r1, r2, lba, sectorSize, limit, live);
    }
  }

  lemma HoldsThen(a: Moment, b: Moment, c: Moment, r1: seq<Read>, r2: seq<Read>, lba: nat, sectorSize: nat, limit: nat, live: bool)
    requires 0 < sectorSize && Claims(At(c.extents, lba))
    requires SectorProgress(a, b, r1, lba, sectorSize, limit, true) && SectorProgress(b, c, r2, lba, sectorSize, limit, live)
    ensures forall i :: 0 <= i < |Fulls(r1) + Fulls(r2)| && (Fulls(r1) + Fulls(r2))[i].Covers(lba) ==>
              HoldsRead(c.image, (Fulls(r1) + Fulls(r2))[i], lba, sectorSize)
  {
    hide Count, Fulls, SectorOf, Claims, HoldsRead, SameBytes;
    var f1, f2 := Fulls(r1), Fulls(r2);
    var all: seq<Read> := f1 + f2;
    forall i | 0 <= i < |all| && all[i].Covers(lba) ensures HoldsRead(c.image, all[i], lba, sectorSize) {
      if i < |f1| {
        CountedOnce(f1, lba, i);
        HoldsStill(b.image, c.image, f1[i], lba, sectorSize);
      } else {
        assert all[i] == f2[i - |f1|];
      }
    }
  }

  lemma HoldsStill(image: Contents, image': Contents, r: Read, lba: nat, sectorSize: nat)
    requires 0 < sectorSize && HoldsRead(image, r, lba, sectorSize) && SameBytes(image, image', lba, sectorSize)
    ensures HoldsRead(image', r, lba, sectorSize)
  {
    hide SectorOf;
  }

  lemma CallsProgressThen(a: Moment, b: Moment, c: Moment, f1: seq<Read>, f2: seq<Read>, live: bool)
    requires CallsProgress(a, b, f1, true) && CallsProgress(b, c, f2, live)
    ensures CallsProgress(a, c, f1 + f2, live)
  {
    hide Stands;
    forall j | |a.calls| <= j < |c.calls| ensures Stands((f1 + f2)[j - |a.calls|], c.calls[j], c.recovered[j]) {
      if j < |b.calls| {
        assert c.calls[j] == b.calls[j] && c.recovered[j] == b.recovered[j];
      } else {
        assert (f1 + f2)[j - |a.calls|] == f2[j - |b.calls|];
      }
    }
  }

  lemma ProgressThen(a: Moment, b: Moment, c: Moment, sectorSize: nat, capacity: nat, limit: nat, live: bool)
    requires Progress(a, b, sectorSize, capacity, limit, true) && Progress(b, c, sectorSize, capacity, limit, live)
    ensures Progress(a, c, sectorSize, capacity, limit, live)
    ensures a.trace <= b.trace <= c.trace && Since(a, c) == Since(a, b) + Since(b, c)
  {
    hide SectorProgress, CallsProgress, Fulls, Aligned, Canonical;
    var r1, r2 := Since(a, b), Since(b, c);
    assert c.trace[|a.trace|..] == r1 + r2;
    FullsConcat(r1, r2);
    CallsProgressThen(a, b, c, Fulls(r1), Fulls(r2), live);
    forall lba: nat ensures SectorProgress(a, c, r1 + r2, lba, sectorSize, limit, live) {
      SectorProgressThen(a, b, c, r1, r2, lba, sectorSize, limit, live);
    }
  }

  /** A live stretch is also one that may end in an error, under any larger limit. */
  lemma ProgressWeakens(a: Moment, b: Moment, sectorSize: nat, capacity: nat, limit: nat, live: bool)
    requires Progress(a, b, sectorSize, capacity, limit, true)
    ensures Progress(a, b, sectorSize, capacity, limit, live)
  {
    hide Count, Fulls, SameBytes, HoldsRead, Aligned, Stands, Canonical;
    forall lba: nat ensures SectorProgress(a, b, Since(a, b), lba, sectorSize, limit, live) {
      assert SectorProgress(a, b, Since(a, b), lba, sectorSize, limit, true);
    }
  }

  // ----- single steps

  /** The image around one read: what a full read's range may hold changes, nothing else. */
  ghost predicate ImageStep(image: Contents, image': Contents, r: Read) {
    && (!r.Full() ==> image' == image)
    && (r.Full() ==> UntouchedOutside(image, image', r.Call()))
  }

  lemma UntouchedSector(image: Contents, image': Contents, r: Read, lba: nat, sectorSize: nat)
    requires 0 < sectorSize && Aligned(r, sectorSize) && ImageStep(image, image', r)
    requires !r.Full() || !r.Covers(lba)
    ensures SameBytes(image, image', lba, sectorSize)
  {
    hide SectorOf, Aligned;
    if r.Full() {
      forall x: nat | SectorOf(x, sectorSize) == lba ensures (x in image <==> x in image') && (x in image ==> image[x] == image'[x]) {
        CallCovers(r, sectorSize, x);
      }
    }
  }

  lemma CarriedSector(image: Contents, r: Read, lba: nat, sectorSize: nat)
    requires 0 < sectorSize && Aligned(r, sectorSize) && r.Full() && Carries(image, r.Call()) && r.Covers(lba)
    ensures HoldsRead(image, r, lba, sectorSize)
  {
    hide SectorOf, Aligned;
    forall x: nat | SectorOf(x, sectorSize) == lba ensures r.Call().Covers(x) && x in image && image[x] == r.buffer[x - r.offset] {
      CallCovers(r, sectorSize, x);
    }
  }

  /** Every sector of the range has this many attempts behind it and no data. */
  ghost predicate Unclaimed(s: seq<Extent>, start: nat, sectors: nat, attempts: nat) {
    forall lba: nat :: start <= lba < start + sectors ==> Attempts(At(s, lba)) == attempts && !Claims(At(s, lba))
  }

  lemma OneReadCounts(r: Read, lba: nat)
    ensures Fulls([r]) == (if r.Full() then [r] else [])
    ensures Count([r], lba) == Times(r.Covers(lba)) && Count(Fulls([r]), lba) == Times(r.Full() && r.Covers(lba))
  {
    FullsOne(r);
    CountOne(r, lba);
  }

  lemma OneReadSector(a: Moment, b: Moment, r: Read, lba: nat, sectorSize: nat, limit: nat, live: bool)
    requires 0 < sectorSize && Aligned(r, sectorSize) && ImageStep(a.image, b.image, r)
    requires MarkProgress(At(a.extents, lba), At(b.extents, lba), Times(r.Covers(lba)), Times(r.Full() && r.Covers(lba)), limit, live)
    requires Outcome(At(a.extents, lba), At(b.extents, lba), Times(r.Covers(lba)), Times(r.Full() && r.Covers(lba)), b.final, live)
    requires Claims(At(b.extents, lba)) && r.Full() && r.Covers(lba) ==> Carries(b.image, r.Call())
    ensures SectorProgress(a, b, [r], lba, sectorSize, limit, live)
  {
    hide SectorOf, Aligned, UntouchedOutside, Carries, ImageStep, SameBytes, HoldsRead, MarkProgress, Outcome, Count, Fulls, Claims;
    OneReadCounts(r, lba);
    if !r.Full() || !r.Covers(lba) {
      UntouchedSector(a.image, b.image, r, lba, sectorSize);
    } else if Claims(At(b.extents, lba)) {
      CarriedSector(b.image, r, lba, sectorSize);
    }
  }

  lemma SinceOne(a: Moment, b: Moment, r: Read)
    requires b.trace == a.trace + [r]
    ensures a.trace <= b.trace && Since(a, b) == [r]
  {
  }

  lemma OneReadProgress(a: Moment, b: Moment, r: Read, sectorSize: nat, capacity: nat, limit: nat, live: bool)
    requires 0 < sectorSize && Aligned(r, sectorSize) && r.start + r.sectors <= capacity && b.trace == a.trace + [r]
    requires CallsProgress(a, b, if r.Full() then [r] else [], live)
    requires (b.extents == a.extents || Canonical(b.extents)) && a.final == b.final && (live ==> !Stops(r.error))
    requires forall lba: nat :: SectorProgress(a, b, [r], lba, sectorSize, limit, live)
    ensures Progress(a, b, sectorSize, capacity, limit, live)
  {
    hide SectorProgress, Aligned, CallsProgress, Since, Fulls, Count, Canonical;
    SinceOne(a, b, r);
    FullsOne(r);
  }

  /** One read and the mark that records it. */
  lemma Attempted(a: Moment, b: Moment, r: Read, e: Extent, attempts: nat, sectorSize: nat, capacity: nat, limit: nat, live: bool)
    requires 0 < sectorSize && Aligned(r, sectorSize) && r.start + r.sectors <= capacity && b.trace == a.trace + [r]
    requires attempts < limit && Unclaimed(a.extents, r.start, r.sectors, attempts)
    requires e.start == r.start && e.sectors == r.sectors && e.mark.attempts == attempts + 1
    requires e.mark.state != SKIPPED && e.mark.state != MISSING
    requires Overridden(a.extents, e, b.extents) && Canonical(b.extents) && a.final == b.final
    requires ImageStep(a.image, b.image, r)
    requires e.mark.ClaimsData() ==> r.Full() && Carries(b.image, r.Call())
    requires live ==> e.mark == ReadMark(r.Full(), e.mark.attempts) && !Stops(r.error)
    requires CallsProgress(a, b, if r.Full() then [r] else [], live)
    ensures Progress(a, b, sectorSize, capacity, limit, live)
  {
    hide SectorOf, Aligned, CallsProgress, UntouchedOutside, Carries, ImageStep, SectorProgress, Progress, Canonical;
    forall lba: nat ensures SectorProgress(a, b, [r], lba, sectorSize, limit, live) {
      assert At(b.extents, lba) == if e.Covers(lba) then Some(e.mark) else At(a.extents, lba);
      OneReadSector(a, b, r, lba, sectorSize, limit, live);
    }
    OneReadProgress(a, b, r, sectorSize, capacity, limit, live);
  }

  /** A last read that ended in an error before the map recorded it. */
  lemma AttemptLost(a: Moment, b: Moment, r: Read, attempts: nat, sectorSize: nat, capacity: nat, limit: nat)
    requires 0 < sectorSize && Aligned(r, sectorSize) && r.start + r.sectors <= capacity && b.trace == a.trace + [r]
    requires attempts < limit && Unclaimed(a.extents, r.start, r.sectors, attempts)
    requires b.extents == a.extents && ImageStep(a.image, b.image, r) && a.final == b.final
    requires CallsProgress(a, b, if r.Full() then [r] else [], false)
    ensures Progress(a, b, sectorSize, capacity, limit, false)
  {
    hide SectorOf, Aligned, CallsProgress, UntouchedOutside, ImageStep, SectorProgress, Progress, Canonical;
    forall lba: nat ensures SectorProgress(a, b, [r], lba, sectorSize, limit, false) {
      OneReadSector(a, b, r, lba, sectorSize, limit, false);
    }
    OneReadProgress(a, b, r, sectorSize, capacity, limit, false);
  }

  /** A retryable range is given up. */
  lemma MarkOnly(a: Moment, b: Moment, e: Extent, sectorSize: nat, capacity: nat, limit: nat)
    requires 0 < sectorSize && b == a.(extents := b.extents) && |a.calls| == |a.recovered|
    requires Unclaimed(a.extents, e.start, e.sectors, e.mark.attempts) && a.final
    requires forall lba: nat :: e.Covers(lba) ==> Finalized(At(a.extents, lba)) == Some(e.mark)
    requires !e.mark.ClaimsData() && e.mark.state != SKIPPED
    requires Overridden(a.extents, e, b.extents) && Canonical(b.extents)
    ensures Progress(a, b, sectorSize, capacity, limit, true)
  {
    hide SectorOf, Canonical;
    assert Since(a, b) == [];
    forall lba: nat ensures SectorProgress(a, b, [], lba, sectorSize, limit, true) {
      assert At(b.extents, lba) == if e.Covers(lba) then Some(e.mark) else At(a.extents, lba);
    }
  }

  lemma OverriddenTwice(s: seq<Extent>, first: Extent, t: seq<Extent>, second: Extent, u: seq<Extent>)
    requires Overridden(s, first, t) && Overridden(t, second, u)
    requires first.start == second.start && first.sectors == second.sectors
    ensures Overridden(s, second, u)
  {
    forall lba: nat ensures At(u, lba) == if second.Covers(lba) then Some(second.mark) else At(s, lba) {
      assert At(t, lba) == if first.Covers(lba) then Some(first.mark) else At(s, lba);
    }
  }

  lemma NothingHanded(a: Moment, b: Moment, r: Read, live: bool)
    requires b.calls == a.calls && b.recovered == a.recovered && |a.calls| == |a.recovered|
    requires !r.Full() || !live
    ensures CallsProgress(a, b, if r.Full() then [r] else [], live)
  {
  }

  lemma OneHanded(a: Moment, b: Moment, r: Read, e: Extent, live: bool)
    requires r.Full() && |a.calls| == |a.recovered| && e.start == r.start && e.sectors == r.sectors && e.mark.ClaimsData()
    requires b.calls == a.calls + [r.Call()] && b.recovered == a.recovered + [e]
    ensures CallsProgress(a, b, [r], live)
  {
  }

  // ----- the total work

  /** How many reads the limit leaves to the sectors of the medium. */
  function Budget(s: seq<Extent>, limit: nat, capacity: nat): nat {
    if capacity == 0 then 0 else Budget(s, limit, capacity - 1) + Remaining(At(s, capacity - 1), limit)
  }

  function Touches(trace: seq<Read>, capacity: nat): nat {
    if capacity == 0 then 0 else Touches(trace, capacity - 1) + Count(trace, capacity - 1)
  }

  lemma {:induction false} TouchesConcat(a: seq<Read>, b: seq<Read>, capacity: nat)
    ensures Touches(a + b, capacity) == Touches(a, capacity) + Touches(b, capacity)
  {
    if capacity > 0 {
      TouchesConcat(a, b, capacity - 1);
      CountConcat(a, b, capacity - 1);
    }
  }

  lemma {:induction false} TouchesOne(r: Read, capacity: nat)
    ensures r.start < capacity && 0 < r.sectors ==> Touches([r], capacity) >= 1
  {
    if capacity > 0 {
      CountOne(r, capacity - 1);
      TouchesOne(r, capacity - 1);
    }
  }

  lemma {:induction false} ReadsTouch(trace: seq<Read>, capacity: nat)
    requires forall i :: 0 <= i < |trace| ==> trace[i].start < capacity && 0 < trace[i].sectors
    ensures |trace| <= Touches(trace, capacity)
  {
    if trace != [] {
      var p, r := trace[..|trace|-1], trace[|trace|-1];
      assert trace == p + [r];
      ReadsTouch(p, capacity);
      TouchesConcat(p, [r], capacity);
      TouchesOne(r, capacity);
    }
  }

  lemma {:induction false} TouchesWithinBudget(s: seq<Extent>, trace: seq<Read>, limit: nat, capacity: nat)
    requires forall lba: nat :: lba < capacity ==> Count(trace, lba) <= Remaining(At(s, lba), limit)
    ensures Touches(trace, capacity) <= Budget(s, limit, capacity)
  {
    if capacity > 0 {
      TouchesWithinBudget(s, trace, limit, capacity - 1);
    }
  }

  /** Whatever the device does, no more reads are made than the attempts left to the sectors allow. */
  lemma ReadsWithinBudget(a: Moment, b: Moment, sectorSize: nat, capacity: nat, limit: nat, live: bool)
    requires Progress(a, b, sectorSize, capacity, limit, live)
    ensures |b.trace| - |a.trace| <= Budget(a.extents, limit, capacity)
  {
    hide Count, Fulls, CallsProgress, SameBytes, HoldsRead, Touches, Budget, Canonical;
    var trace := Since(a, b);
    forall lba: nat | lba < capacity ensures Count(trace, lba) <= Remaining(At(a.extents, lba), limit) {
      assert SectorProgress(a, b, trace, lba, sectorSize, limit, live);
    }
    ReadsTouch(trace, capacity);
    TouchesWithinBudget(a.extents, trace, limit, capacity);
  }
}
