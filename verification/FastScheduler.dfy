/** The fast scheduler (internal/recovery/fast_pass.go): clusters of unknown sectors are read in order; after a failed
    cluster its sectors are read singly, and after a failed sector a stretch behind it is skipped. */
module FastScheduling {
  import opened Prelude
  import opened Transitions
  import opened Extents
  import opened Coalescing
  import opened Applying
  import opened Sums
  import opened Requests
  import Bisection

  const SKIP_AFTER_FAILURE: uint32 := 256

  datatype Mode = Cluster | Single | Checkpoint | Done

  datatype State = State(extents: seq<Extent>, cursor: uint64, clusterSize: uint32, skipAfterFailure: uint32, mode: Mode,
                         boundary: uint64, active: Option<Request>, checkpointActive: bool)

  datatype Decision = Read(request: Request) | Wait | SaveCheckpoint | Finished

  datatype FastError = BadExtents | BadCluster | BadSkip | StillActive | NotCompleted | NothingActive | WrongRequest | BadMode | NotSchedulable

  predicate IsUnknown(m: Option<Mark>) {
    m.Some? && m.value.state == UNKNOWN
  }

  // ----- finding work

  /** The first unknown extent that ends behind the cursor. */
  function FirstUnknown(s: seq<Extent>, cursor: nat): Option<Extent> {
    if s == [] then None
    else if s[0].mark.state == UNKNOWN && s[0].End() > cursor then Some(s[0])
    else FirstUnknown(s[1..], cursor)
  }

  lemma {:induction false} FirstUnknownIndex(s: seq<Extent>, cursor: nat) returns (i: nat)
    ensures i <= |s| && FirstUnknown(s, cursor) == (if i < |s| then Some(s[i]) else None)
    ensures forall k :: 0 <= k < i ==> s[k].mark.state != UNKNOWN || s[k].End() <= cursor
    ensures i < |s| ==> s[i].mark.state == UNKNOWN && cursor < s[i].End()
  {
    if s == [] || (s[0].mark.state == UNKNOWN && s[0].End() > cursor) {
      i := 0;
    } else {
      var k := FirstUnknownIndex(s[1..], cursor);
      i := k + 1;
    }
  }

  lemma FirstUnknownFound(s: seq<Extent>, cursor: nat)
    requires ValidSet(s)
    ensures FirstUnknown(s, cursor).None? ==> forall x: nat :: cursor <= x ==> !IsUnknown(At(s, x))
    ensures FirstUnknown(s, cursor).Some? ==>
              var e := FirstUnknown(s, cursor).value;
              && e in s && e.mark.state == UNKNOWN && e.End() > cursor && e.sectors > 0
              && (forall x: nat :: cursor <= x < e.start ==> !IsUnknown(At(s, x)))
              && (forall x: nat :: e.Covers(x) ==> At(s, x) == Some(e.mark))
  {
    hide FirstUnknown, At;
    var i := FirstUnknownIndex(s, cursor);
    ValidSetIsSeparated(s);
    forall x: nat | cursor <= x && (i < |s| ==> x < s[i].start) ensures !IsUnknown(At(s, x)) {
      if IsUnknown(At(s, x)) {
        var k := AtFound(s, x);
      }
    }
    if i < |s| {
      forall x: nat | s[i].Covers(x) ensures At(s, x) == Some(s[i].mark) {
        AtIndex(s, i, x);
      }
    }
  }

  /** nextClusterRange (fast_pass.go:180). */
  function NextCluster(s: seq<Extent>, cursor: uint64, size: uint32): Option<Request> {
    var e := FirstUnknown(s, cursor);
    if e.None? then None
    else
      var start := if e.value.start < cursor then cursor else e.value.start;
      var span := Wrap32(if e.value.End() >= start then e.value.End() - start else 0);
      Some(Request(start, if span > size then size else span))
  }

  /** nextSingleSector (fast_pass.go:198). */
  function NextSingle(s: seq<Extent>, cursor: uint64, boundary: uint64): Option<uint64> {
    var e := FirstUnknown(s, cursor);
    if e.None? then None
    else
      var start := if e.value.start < cursor then cursor else e.value.start;
      if start >= boundary then None else Some(start)
  }

  function NextRequest(s: State): Option<Request> {
    match s.mode
    case Cluster => NextCluster(s.extents, s.cursor, s.clusterSize)
    case Single =>
      (match NextSingle(s.extents, s.cursor, s.boundary)
       case None => None
       case Some(start) => Some(Request(start, 1)))
    case _ => None
  }

  // ----- skipping

  /** How many sectors from `start` on, at most `limit`, are unknown without a break. */
  function UnknownRun(s: seq<Extent>, start: nat, limit: nat): (n: nat)
    ensures n <= limit
    decreases limit
  {
    if limit == 0 || !IsUnknown(At(s, start)) then 0 else 1 + UnknownRun(s, start + 1, limit - 1)
  }

  lemma {:induction false} RunIsUnknown(s: seq<Extent>, start: nat, limit: nat, x: nat)
    requires start <= x < start + UnknownRun(s, start, limit)
    ensures IsUnknown(At(s, x))
    decreases limit
  {
    if start < x {
      RunIsUnknown(s, start + 1, limit - 1, x);
    }
  }

  /** The run ends at the limit or at a sector that is not unknown. */
  lemma {:induction false} RunIsMaximal(s: seq<Extent>, start: nat, limit: nat)
    ensures UnknownRun(s, start, limit) < limit ==> !IsUnknown(At(s, start + UnknownRun(s, start, limit)))
    decreases limit
  {
    if limit > 0 && IsUnknown(At(s, start)) {
      RunIsMaximal(s, start + 1, limit - 1);
    }
  }

  lemma {:induction false} RunThrough(s: seq<Extent>, start: nat, limit: nat, n: nat)
    requires n <= limit && forall x: nat :: start <= x < start + n ==> IsUnknown(At(s, x))
    ensures UnknownRun(s, start, limit) == n + UnknownRun(s, start + n, limit - n)
    decreases n
  {
    if n > 0 {
      RunThrough(s, start + 1, limit - 1, n - 1);
    }
  }

  lemma {:induction false} RunSame(s: seq<Extent>, t: seq<Extent>, start: nat, limit: nat)
    requires forall x: nat :: start <= x ==> At(s, x) == At(t, x)
    ensures UnknownRun(s, start, limit) == UnknownRun(t, start, limit)
    decreases limit
  {
    if limit > 0 {
      RunSame(s, t, start + 1, limit - 1);
    }
  }

  /** skipLength (fast_pass.go:237): the loop over the extents finds the run of unknown sectors. */
  method SkipLength(start: uint64, limit: uint32, extents: seq<Extent>) returns (total: uint32)
    requires ValidSet(extents)
    ensures total == UnknownRun(extents, start, limit)
  {
    hide ValidSet, UnknownRun;
    if limit == 0 {
      NoRun(extents, start);
      return 0;
    }
    total := 0;
    var current := start;
    for i := 0 to |extents|
      invariant total < limit && current == start + total
      invariant UnknownRun(extents, start, limit) == total + UnknownRun(extents, current, limit - total)
      invariant forall k :: 0 <= k < i ==> extents[k].mark.state != UNKNOWN || extents[k].End() <= current
    {
      var extent := extents[i];
      if extent.mark.state != UNKNOWN || extent.End() <= current {
        continue;
      }
      var rangeStart := if extent.start < current then current else extent.start;
      if rangeStart != current {
        RunStops(extents, i, current, limit - total);
        return;
      }
      var available, remaining := extent.End() - rangeStart, limit - total;
      ghost var taken := if available >= remaining then remaining else available;
      RunInExtent(extents, i, current, remaining, taken);
      if available >= remaining {
        NoRun(extents, current + taken);
        return total + remaining;
      }
      total := total + available;
      current := extent.End();
    }
    RunStops(extents, |extents|, current, limit - total);
  }

  lemma NoRun(s: seq<Extent>, start: nat)
    ensures UnknownRun(s, start, 0) == 0
  {
  }

  lemma RunInExtent(s: seq<Extent>, i: nat, current: nat, limit: nat, taken: nat)
    requires ValidSet(s) && i < |s| && s[i].Covers(current) && s[i].mark.state == UNKNOWN
    requires taken <= limit && current + taken <= s[i].End()
    ensures UnknownRun(s, current, limit) == taken + UnknownRun(s, current + taken, limit - taken)
  {
    forall x: nat | current <= x < current + taken ensures IsUnknown(At(s, x)) {
      AtIndex(s, i, x);
    }
    RunThrough(s, current, limit, taken);
  }

  lemma RunStops(s: seq<Extent>, i: nat, current: nat, limit: nat)
    requires ValidSet(s) && i <= |s| && forall k :: 0 <= k < i ==> s[k].mark.state != UNKNOWN || s[k].End() <= current
    requires i < |s| ==> s[i].start > current
    ensures UnknownRun(s, current, limit) == 0
  {
    if IsUnknown(At(s, current)) {
      var k := AtFound(s, current);
      ValidSetIsSeparated(s);
    }
  }

  // ----- marking a range

  function Remarked(m: Mark, state: uint8): Mark {
    m.(state := state, confidence := NO_CONFIDENCE, attempts := Wrap16(m.attempts + 1))
  }

  function PiecesOf(e: Extent, start: nat, end: nat, state: uint8): seq<Extent>
    requires start < end
  {
    if e.End() <= start || e.start >= end then [e]
    else
      var from, to := Max(e.start, start), Min(e.End(), end);
      (if e.start < start then [e.(sectors := Wrap32(start - e.start))] else [])
      + [Extent(Wrap64(from), Wrap32(if to >= from then to - from else 0), Remarked(e.mark, state))]
      + (if to < e.End() then [Extent(Wrap64(to), Wrap32(e.End() - to), e.mark)] else [])
  }

  function Replaced(s: seq<Extent>, start: nat, end: nat, state: uint8): seq<Extent>
    requires start < end
  {
    if s == [] then [] else Replaced(s[..|s|-1], start, end, state) + PiecesOf(s[|s|-1], start, end, state)
  }

  predicate Touches(e: Extent, start: nat, end: nat) {
    !(e.End() <= start || e.start >= end)
  }

  /** replaceRangeState (fast_pass.go:269). */
  method ReplaceRangeState(extents: seq<Extent>, start: uint64, sectors: uint32, state: uint8) returns (r: Result<seq<Extent>, FastError>)
    requires ValidSet(extents) && start + sectors < TWO_64 && ValidStateConfidence(state, NO_CONFIDENCE)
    ensures sectors == 0 ==> r == Ok(extents)
    ensures sectors > 0 ==>
              (r.Ok? <==> forall i :: 0 <= i < |extents| && Touches(extents[i], start, start + sectors) ==> extents[i].mark.state == UNKNOWN)
    ensures sectors > 0 && r.Ok? ==> r.value == Coalesce(Replaced(extents, start, start + sectors, state))
  {
    hide ValidSet, Coalesce, PiecesOf;
    if sectors == 0 {
      return Ok(extents);
    }
    var end := start + sectors;
    var result: seq<Extent> := [];
    for i := 0 to |extents|
      invariant result == Replaced(extents[..i], start, end, state)
      invariant forall k :: 0 <= k < i && Touches(extents[k], start, end) ==> extents[k].mark.state == UNKNOWN
    {
      var extent := extents[i];
      assert extents[..i+1][..i] == extents[..i];
      var pieces := PiecesFor(extents, i, extent, start, end, state);
      if pieces.None? {
        return Err(NotSchedulable);
      }
      result := result + pieces.value;
    }
    assert extents[..|extents|] == extents;
    ReplacedValid(extents, start, end, state);
    var coalesced := CoalesceExtents(result);
    return Ok(coalesced.value);
  }

  /** What becomes of one extent (fast_pass.go:276-305). */
  method PiecesFor(extents: seq<Extent>, i: nat, extent: Extent, start: uint64, end: uint64, state: uint8) returns (r: Option<seq<Extent>>)
    requires ValidSet(extents) && i < |extents| && extent == extents[i] && start < end
    ensures r.None? <==> Touches(extent, start, end) && extent.mark.state != UNKNOWN
    ensures r.Some? ==> r.value == PiecesOf(extent, start, end, state)
  {
    if extent.End() <= start || extent.start >= end {
      return Some([extent]);
    }
    hide PiecesOf, Remarked;
    ghost var left, middle, right := PiecesShape(extent, start, end, state);
    if extent.mark.state != UNKNOWN {
      return None;
    }
    var pieces: seq<Extent> := [];
    if extent.start < start {
      pieces := pieces + [extent.(sectors := start - extent.start)];
    }
    var middleStart, middleEnd := Max(extent.start, start), Min(extent.End(), end);
    pieces := pieces + [Extent(middleStart, middleEnd - middleStart, Remarked(extent.mark, state))];
    if middleEnd < extent.End() {
      pieces := pieces + [Extent(middleEnd, extent.End() - middleEnd, extent.mark)];
    }
    return Some(pieces);
  }

  lemma PiecesOfView(e: Extent, start: nat, end: nat, state: uint8, x: nat)
    requires e.Valid() && start < end && ValidStateConfidence(state, NO_CONFIDENCE)
    ensures At(PiecesOf(e, start, end, state), x) ==
            if !e.Covers(x) then None else if start <= x < end then Some(Remarked(e.mark, state)) else Some(e.mark)
  {
    if e.End() <= start || e.start >= end {
      AtOne(e, x);
    } else {
      hide PiecesOf;
      var left, middle, right := PiecesShape(e, start, end, state);
      AtConcat(left + middle, right, x);
      AtConcat(left, middle, x);
      if left != [] { AtOne(left[0], x); }
      AtOne(middle[0], x);
      if right != [] { AtOne(right[0], x); }
    }
  }

  lemma PiecesShape(e: Extent, start: nat, end: nat, state: uint8) returns (left: seq<Extent>, middle: seq<Extent>, right: seq<Extent>)
    requires e.Valid() && start < end && Touches(e, start, end)
    ensures PiecesOf(e, start, end, state) == left + middle + right
    ensures left == (if e.start < start then [e.(sectors := start - e.start)] else [])
    ensures Max(e.start, start) < Min(e.End(), end)
    ensures middle == [Extent(Max(e.start, start), Min(e.End(), end) - Max(e.start, start), Remarked(e.mark, state))]
    ensures right == (if end < e.End() then [Extent(end, e.End() - end, e.mark)] else [])
  {
    hide Remarked, Wrap32, Wrap64;
    var from, to := Max(e.start, start), Min(e.End(), end);
    Fits(from);
    Fits(to - from);
    Fits(end);
    if e.start < start {
      Fits(start - e.start);
    }
    if end < e.End() {
      Fits(e.End() - end);
    }
    left := if e.start < start then [e.(sectors := start - e.start)] else [];
    middle := [Extent(from, to - from, Remarked(e.mark, state))];
    right := if end < e.End() then [Extent(end, e.End() - end, e.mark)] else [];
  }

  lemma PiecesOfValid(e: Extent, start: nat, end: nat, state: uint8)
    requires e.Valid() && start < end && ValidStateConfidence(state, NO_CONFIDENCE)
    ensures Separated(PiecesOf(e, start, end, state))
    ensures forall i :: 0 <= i < |PiecesOf(e, start, end, state)| ==>
              var p := PiecesOf(e, start, end, state)[i]; p.Valid() && e.start <= p.start && p.End() <= e.End()
  {
    if Touches(e, start, end) {
      hide PiecesOf;
      var left, middle, right := PiecesShape(e, start, end, state);
    }
  }

  lemma {:induction false} ReplacedView(s: seq<Extent>, start: nat, end: nat, state: uint8, x: nat)
    requires ValidSet(s) && start < end && ValidStateConfidence(state, NO_CONFIDENCE)
    ensures At(Replaced(s, start, end, state), x) ==
            if At(s, x).Some? && start <= x < end then Some(Remarked(At(s, x).value, state)) else At(s, x)
  {
    if s != [] {
      var p, e := s[..|s|-1], s[|s|-1];
      assert s == p + [e];
      PrefixValid(s, |s|-1);
      hide ValidSet, PiecesOf;
      ReplacedView(p, start, end, state, x);
      assert e.Valid() by {
        LastValid(s);
      }
      PiecesOfView(e, start, end, state, x);
      AtConcat(Replaced(p, start, end, state), PiecesOf(e, start, end, state), x);
      AtConcat(p, [e], x);
      AtOne(e, x);
    }
  }

  lemma LastValid(s: seq<Extent>)
    requires ValidSet(s) && s != []
    ensures s[|s|-1].Valid() && (|s| > 1 ==> s[|s|-2].End() <= s[|s|-1].start)
  {
  }

  lemma {:induction false} ReplacedValid(s: seq<Extent>, start: nat, end: nat, state: uint8)
    requires ValidSet(s) && start < end && ValidStateConfidence(state, NO_CONFIDENCE)
    ensures ValidSet(Replaced(s, start, end, state))
    ensures forall i :: 0 <= i < |Replaced(s, start, end, state)| ==> Replaced(s, start, end, state)[i].End() <= s[|s|-1].End()
  {
    if s != [] {
      var p, e := s[..|s|-1], s[|s|-1];
      PrefixValid(s, |s|-1);
      LastValid(s);
      ReplacedValid(p, start, end, state);
      PiecesOfValid(e, start, end, state);
      var a, b := Replaced(p, start, end, state), PiecesOf(e, start, end, state);
      assert p == [] ==> a == [];
      ValidSetIsSeparated(a);
      ConcatValid(a, b, e.start);
    }
  }

  /** Within a capacity below 2^32 the replacement is the point-wise one. */
  ghost predicate Replacement(s: seq<Extent>, t: seq<Extent>, start: nat, end: nat, state: uint8) {
    forall x: nat :: At(t, x) == if At(s, x).Some? && start <= x < end then Some(Remarked(At(s, x).value, state)) else At(s, x)
  }

  lemma ReplaceIsPointwise(s: seq<Extent>, start: nat, end: nat, state: uint8, capacity: nat)
    requires Extents.Sound(s, capacity) && start < end && ValidStateConfidence(state, NO_CONFIDENCE)
    ensures var t := Coalesce(Replaced(s, start, end, state)); Extents.Sound(t, capacity) && Replacement(s, t, start, end, state)
  {
    hide Coalesce, Replaced;
    var p := Replaced(s, start, end, state);
    ReplacedValid(s, start, end, state);
    assert Within(p, capacity) by {
      assert s == [] || s[|s|-1].End() <= capacity;
      NothingReplaced(start, end, state);
    }
    WithinFits(p, capacity);
    CoalesceCanonical(p);
    var t := Coalesce(p);
    forall x: nat
      ensures At(t, x) == if At(s, x).Some? && start <= x < end then Some(Remarked(At(s, x).value, state)) else At(s, x)
    {
      assert At(t, x) == At(p, x);
      ReplacedView(s, start, end, state, x);
    }
    forall x: nat | At(t, x).Some? ensures x < capacity {
      assert At(t, x) == At(p, x);
      WithinView(p, capacity, x);
    }
    ViewWithin(t, capacity);
  }

  lemma NothingReplaced(start: nat, end: nat, state: uint8)
    requires start < end
    ensures Replaced([], start, end, state) == []
  {
  }

  // ----- start, dispatch, resolve

  /** StartFastPass (fast_pass.go:51). */
  function StartFastPass(extents: seq<Extent>, clusterSize: uint32): Result<State, FastError> {
    if !ValidSet(extents) then Err(BadExtents)
    else if clusterSize == 0 then Err(BadCluster)
    else Ok(State(extents, 0, clusterSize, SKIP_AFTER_FAILURE, Cluster, 0, None, false))
  }

  /** DispatchFastPass (fast_pass.go:66). */
  function DispatchFastPass(s: State, writerAvailable: bool): (State, Result<Decision, FastError>) {
    if !ValidSet(s.extents) then (s, Err(BadExtents))
    else if s.clusterSize == 0 then (s, Err(BadCluster))
    else if s.skipAfterFailure == 0 then (s, Err(BadSkip))
    else if s.active.Some? || s.checkpointActive then (s, Err(StillActive))
    else if s.mode == Done then (s, Ok(Finished))
    else if s.mode == Checkpoint then (s.(checkpointActive := true), Ok(SaveCheckpoint))
    else if !writerAvailable then (s, Ok(Wait))
    else
      var request := NextRequest(s);
      if request.None? then (s.(mode := Checkpoint, checkpointActive := true), Ok(SaveCheckpoint))
      else (s.(active := request), Ok(Read(request.value)))
  }

  /** applyFastPassFailure (fast_pass.go:224). */
  method ApplyFailure(extents: seq<Extent>, failed: uint64, skipAfterFailure: uint32, ghost capacity: nat) returns (r: Result<seq<Extent>, FastError>)
    requires Extents.Sound(extents, capacity) && failed < capacity && IsUnknown(At(extents, failed))
    ensures r.Ok? && Extents.Sound(r.value, capacity)
    ensures FailedThenSkipped(extents, r.value, failed, UnknownRun(extents, failed + 1, skipAfterFailure))
  {
    hide ValidSet, Within, UnknownRun, At, Replaced, Coalesce;
    ghost var n := UnknownRun(extents, failed + 1, skipAfterFailure);
    OnlyUnknownTouched(extents, failed, 1);
    ReplaceIsPointwise(extents, failed, failed + 1, IO_ERROR, capacity);
    var marked := ReplaceRangeState(extents, failed, 1, IO_ERROR);
    SameBehind(extents, marked.value, failed, IO_ERROR);
    RunSame(extents, marked.value, failed + 1, skipAfterFailure);
    var skipStart := failed + 1;
    var skipSectors := SkipLength(skipStart, skipAfterFailure, marked.value);
    RunWithin(marked.value, skipStart, skipAfterFailure, capacity);
    if skipSectors == 0 {
      NothingSkipped(extents, marked.value, failed);
      return marked;
    }
    forall x: nat | skipStart <= x < skipStart + skipSectors ensures IsUnknown(At(marked.value, x)) {
      RunIsUnknown(marked.value, skipStart, skipAfterFailure, x);
    }
    OnlyUnknownTouched(marked.value, skipStart, skipSectors);
    ReplaceIsPointwise(marked.value, skipStart, skipStart + skipSectors, SKIPPED, capacity);
    r := ReplaceRangeState(marked.value, skipStart, skipSectors, SKIPPED);
    BothReplaced(extents, marked.value, r.value, failed, skipSectors);
  }

  /** The view after a failure: the failed sector and the stretch behind it carry their new states. */
  ghost predicate FailedThenSkipped(s: seq<Extent>, t: seq<Extent>, failed: nat, skipped: nat) {
    forall x: nat :: At(t, x) ==
      if At(s, x).Some? && x == failed then Some(Remarked(At(s, x).value, IO_ERROR))
      else if At(s, x).Some? && failed < x <= failed + skipped then Some(Remarked(At(s, x).value, SKIPPED))
      else At(s, x)
  }

  lemma NothingSkipped(s: seq<Extent>, t: seq<Extent>, failed: nat)
    requires Replacement(s, t, failed, failed + 1, IO_ERROR)
    ensures FailedThenSkipped(s, t, failed, 0)
  {
    hide At, Remarked;
    forall x: nat ensures At(t, x) == if At(s, x).Some? && x == failed then Some(Remarked(At(s, x).value, IO_ERROR)) else At(s, x) {
      assert At(t, x) == if At(s, x).Some? && failed <= x < failed + 1 then Some(Remarked(At(s, x).value, IO_ERROR)) else At(s, x);
    }
  }

  lemma BothReplaced(s: seq<Extent>, t: seq<Extent>, u: seq<Extent>, failed: nat, skipped: nat)
    requires Replacement(s, t, failed, failed + 1, IO_ERROR) && Replacement(t, u, failed + 1, failed + 1 + skipped, SKIPPED)
    ensures FailedThenSkipped(s, u, failed, skipped)
  {
    hide At, Remarked;
    forall x: nat ensures At(u, x) ==
      if At(s, x).Some? && x == failed then Some(Remarked(At(s, x).value, IO_ERROR))
      else if At(s, x).Some? && failed < x <= failed + skipped then Some(Remarked(At(s, x).value, SKIPPED))
      else At(s, x)
    {
      assert At(t, x) == if At(s, x).Some? && failed <= x < failed + 1 then Some(Remarked(At(s, x).value, IO_ERROR)) else At(s, x);
      assert At(u, x) == if At(t, x).Some? && failed + 1 <= x < failed + 1 + skipped then Some(Remarked(At(t, x).value, SKIPPED)) else At(t, x);
    }
  }

  lemma SameBehind(s: seq<Extent>, t: seq<Extent>, failed: nat, state: uint8)
    requires Replacement(s, t, failed, failed + 1, state)
    ensures forall x: nat :: failed + 1 <= x ==> At(s, x) == At(t, x)
  {
    hide At;
  }

  lemma RunWithin(s: seq<Extent>, start: nat, limit: nat, capacity: nat)
    requires Extents.Sound(s, capacity) && start <= capacity
    ensures start + UnknownRun(s, start, limit) <= capacity
  {
    hide ValidSet, At;
    var n := UnknownRun(s, start, limit);
    if n > 0 {
      RunIsUnknown(s, start, limit, start + n - 1);
      WithinView(s, capacity, start + n - 1);
    }
  }

  /** A range of unknown sectors touches unknown extents only. */
  lemma OnlyUnknownTouched(s: seq<Extent>, start: nat, sectors: nat)
    requires ValidSet(s) && 0 < sectors && forall x: nat :: start <= x < start + sectors ==> IsUnknown(At(s, x))
    ensures forall i :: 0 <= i < |s| && Touches(s[i], start, start + sectors) ==> s[i].mark.state == UNKNOWN
  {
    hide ValidSet, At;
    forall i | 0 <= i < |s| && Touches(s[i], start, start + sectors) ensures s[i].mark.state == UNKNOWN {
      var x := Max(s[i].start, start);
      ExtentPositive(s, i);
      AtIndex(s, i, x);
    }
  }

  lemma ExtentPositive(s: seq<Extent>, i: nat)
    requires ValidSet(s) && i < |s|
    ensures 0 < s[i].sectors
  {
  }

  /** ResolveFastPass (fast_pass.go:104). */
  method ResolveFastPass(s: State, request: Request, success: bool, checkpointCompleted: bool, ghost capacity: nat)
    returns (next: State, e: Option<FastError>)
    requires Invariant(s, capacity)
    ensures e.None? ==> Invariant(next, capacity) && Idle(next)
    ensures e.Some? ==> next == s
    ensures e.None? <==> if s.checkpointActive then checkpointCompleted else s.active == Some(request)
    ensures e.None? && s.checkpointActive ==> next == s.(checkpointActive := false, mode := Done)
    ensures e.None? && !s.checkpointActive ==> Advanced(s, next, request, success)
  {
    hide ValidSet, Within, At, NextRequest, UnknownRun;
    if s.checkpointActive {
      if !checkpointCompleted {
        return s, Some(NotCompleted);
      }
      next := s.(checkpointActive := false, mode := Done);
      return next, None;
    }
    if s.active.None? {
      return s, Some(NothingActive);
    }
    if request != s.active.value {
      return s, Some(WrongRequest);
    }
    next := s.(active := None);
    RequestIsUnknown(s, capacity);
    var end := request.start + request.sectors;
    if success && s.mode == Cluster {
      next := next.(cursor := end);
      return next, None;
    }
    if success && s.mode == Single {
      next := next.(cursor := request.start + 1);
      SingleGoesOn(next, capacity);
      if next.cursor < s.boundary && NextSingle(next.extents, next.cursor, s.boundary).Some? {
        return next, None;
      }
      next := next.(mode := Cluster);
      if next.cursor < s.boundary {
        next := next.(cursor := s.boundary);
      }
      return next, None;
    }
    if s.mode == Cluster {
      next := next.(mode := Single, cursor := request.start, boundary := end);
      return next, None;
    }
    var skipSectors := SkipLength(request.start + 1, s.skipAfterFailure, next.extents);
    RunWithin(s.extents, request.start + 1, s.skipAfterFailure, capacity);
    var failed := ApplyFailure(next.extents, request.start, s.skipAfterFailure, capacity);
    next := next.(extents := failed.value, mode := Cluster, cursor := request.start + 1 + skipSectors);
    return next, None;
  }

  predicate Idle(s: State) {
    s.active.None? && !s.checkpointActive
  }

  ghost predicate AllUnknown(s: seq<Extent>, start: nat, end: nat) {
    forall x: nat :: start <= x < end ==> IsUnknown(At(s, x))
  }

  ghost predicate NoneUnknown(s: seq<Extent>, start: nat, end: nat) {
    forall x: nat :: start <= x < end ==> !IsUnknown(At(s, x))
  }

  ghost predicate Invariant(s: State, capacity: nat) {
    && Extents.Sound(s.extents, capacity) && 0 < s.clusterSize && 0 < s.skipAfterFailure && s.cursor <= capacity
    && (s.mode == Single ==> s.cursor < s.boundary <= capacity && AllUnknown(s.extents, s.cursor, s.boundary))
    && (s.mode == Checkpoint || s.mode == Done ==> NoneUnknown(s.extents, s.cursor, capacity))
    && (s.active.Some? ==> s.active == NextRequest(s) && !s.checkpointActive)
    && (s.checkpointActive ==> s.mode == Checkpoint)
  }

  /** One answered read. The cursor moves behind the sectors dealt with; what lies between it and the request was not
      unknown; a failed single read marks its sector and a run of unknown ones behind it, and nothing else changes
      the map. */
  ghost predicate Advanced(s: State, next: State, r: Request, success: bool) {
    && next.clusterSize == s.clusterSize && next.skipAfterFailure == s.skipAfterFailure
    && s.cursor <= r.start && 0 < r.sectors && NoneUnknown(s.extents, s.cursor, r.start) && AllUnknown(s.extents, r.start, r.start + r.sectors)
    && (if success then
          next.extents == s.extents && next.cursor == r.start + r.sectors
        else if s.mode == Cluster then
          next.extents == s.extents && next.cursor == r.start && next.mode == Single
        else
          var n := UnknownRun(s.extents, r.start + 1, s.skipAfterFailure);
          && r.sectors == 1 && next.cursor == r.start + 1 + n && next.mode == Cluster
          && FailedThenSkipped(s.extents, next.extents, r.start, n))
  }

  lemma RequestIsUnknown(s: State, capacity: nat)
    requires Extents.Sound(s.extents, capacity) && 0 < s.clusterSize && s.cursor <= capacity && NextRequest(s).Some?
    ensures var r := NextRequest(s).value;
            && 0 < r.sectors && s.cursor <= r.start && r.start + r.sectors <= capacity
            && NoneUnknown(s.extents, s.cursor, r.start) && AllUnknown(s.extents, r.start, r.start + r.sectors)
            && (s.mode == Single ==> r.sectors == 1 && r.start < s.boundary)
            && (s.mode == Single && AllUnknown(s.extents, s.cursor, s.boundary) && s.cursor < s.boundary ==> r.start == s.cursor)
            && (s.mode == Cluster ==> r.sectors <= s.clusterSize
                                      && (r.sectors == s.clusterSize || exists e :: e in s.extents && e.End() == r.start + r.sectors))
    ensures s.mode == Cluster || s.mode == Single
  {
    hide ValidSet, At, Wrap32, FirstUnknown;
    FirstUnknownFound(s.extents, s.cursor);
    var e := FirstUnknown(s.extents, s.cursor).value;
    var start := if e.start < s.cursor then s.cursor else e.start;
    Fits(e.End() - start);
    var i :| 0 <= i < |s.extents| && s.extents[i] == e;
    assert e.End() <= capacity;
    if s.mode == Single && s.cursor < s.boundary && AllUnknown(s.extents, s.cursor, s.boundary) {
      assert IsUnknown(At(s.extents, s.cursor));
      assert !(s.cursor < e.start);
    }
  }

  /** Inside the boundary of a failed cluster there is always a next sector: single mode never runs dry. */
  lemma SingleGoesOn(s: State, capacity: nat)
    requires Extents.Sound(s.extents, capacity) && AllUnknown(s.extents, s.cursor, s.boundary)
    ensures s.cursor < s.boundary ==> NextSingle(s.extents, s.cursor, s.boundary) == Some(s.cursor)
  {
    hide ValidSet, At, FirstUnknown;
    FirstUnknownFound(s.extents, s.cursor);
    if s.cursor < s.boundary {
      assert IsUnknown(At(s.extents, s.cursor));
    }
  }

  lemma DispatchKeepsInvariant(s: State, writerAvailable: bool, capacity: nat)
    requires Invariant(s, capacity) && Idle(s)
    ensures var (next, r) := DispatchFastPass(s, writerAvailable);
            && Invariant(next, capacity) && r.Ok? && next.extents == s.extents && next.cursor == s.cursor
            && (r.value.Read? ==> next == s.(active := Some(r.value.request)) && (s.mode == Cluster || s.mode == Single))
            && (r.value.SaveCheckpoint? ==> next.checkpointActive && s.mode != Done)
            && (r.value.Finished? <==> s.mode == Done)
            && (writerAvailable ==> !r.value.Wait?)
            && (s.mode == Single && writerAvailable ==> r.value.Read? && r.value.request.start == s.cursor)
  {
    hide ValidSet, Within, At, FirstUnknown, Wrap32;
    if s.mode == Single {
      SingleGoesOn(s, capacity);
    }
    if s.mode == Cluster {
      FirstUnknownFound(s.extents, s.cursor);
    }
  }

  // ----- accounting

  /** One sector at some moment of the pass: before the cursor reaches it nothing has happened to it; behind the cursor
      an initially unknown sector was either read once, and is still marked unknown, or given up. */
  predicate SectorAccounted(initial: Option<Mark>, now: Option<Mark>, delivered: nat, reached: bool) {
    if reached && IsUnknown(initial) then
      (IsUnknown(now) && delivered == 1) || (now.Some? && (now.value.state == IO_ERROR || now.value.state == SKIPPED) && delivered == 0)
    else now == initial && delivered == 0
  }

  ghost predicate Accounted(initial: seq<Extent>, s: State, successes: seq<Request>) {
    forall x: nat :: SectorAccounted(At(initial, x), At(s.extents, x), Sum(Covering(x), successes), x < s.cursor)
  }

  lemma AccountedStep(initial: seq<Extent>, s: State, next: State, successes: seq<Request>, r: Request, success: bool)
    requires Accounted(initial, s, successes) && Advanced(s, next, r, success)
    ensures Accounted(initial, next, if success then successes + [r] else successes)
  {
    hide At, Sum;
    var after := if success then successes + [r] else successes;
    forall x: nat ensures SectorAccounted(At(initial, x), At(next.extents, x), Sum(Covering(x), after), x < next.cursor) {
      assert SectorAccounted(At(initial, x), At(s.extents, x), Sum(Covering(x), successes), x < s.cursor);
      if success {
        SumConcat(Covering(x), successes, [r]);
        SumOne(Covering(x), r);
        if s.cursor <= x < r.start {
          assert !IsUnknown(At(s.extents, x));
        } else if r.start <= x < r.start + r.sectors {
          assert IsUnknown(At(s.extents, x));
        }
      } else if s.mode == Cluster {
        if s.cursor <= x < r.start {
          assert !IsUnknown(At(s.extents, x));
        }
      } else {
        FailureAccounted(s, next, r, x);
      }
    }
  }

  lemma FailureAccounted(s: State, next: State, r: Request, x: nat)
    requires Advanced(s, next, r, false) && s.mode != Cluster
    ensures x < s.cursor || next.cursor <= x ==> At(next.extents, x) == At(s.extents, x)
    ensures s.cursor <= x < next.cursor ==>
              if x < r.start then !IsUnknown(At(s.extents, x)) && At(next.extents, x) == At(s.extents, x)
              else IsUnknown(At(s.extents, x)) && At(next.extents, x).Some? &&
                   (At(next.extents, x).value.state == IO_ERROR || At(next.extents, x).value.state == SKIPPED)
  {
    hide At;
    var n := UnknownRun(s.extents, r.start + 1, s.skipAfterFailure);
    assert At(next.extents, x) ==
      if At(s.extents, x).Some? && x == r.start then Some(Remarked(At(s.extents, x).value, IO_ERROR))
      else if At(s.extents, x).Some? && r.start < x <= r.start + n then Some(Remarked(At(s.extents, x).value, SKIPPED))
      else At(s.extents, x);
    if s.cursor <= x < r.start {
      assert !IsUnknown(At(s.extents, x));
    } else if x == r.start {
      assert IsUnknown(At(s.extents, x));
    } else if r.start < x <= r.start + n {
      RunIsUnknown(s.extents, r.start + 1, s.skipAfterFailure, x);
    }
  }

  function Rank(m: Mode): nat {
    match m case Cluster => 2 case Single => 2 case Checkpoint => 1 case Done => 0
  }

  /** Any client of the scheduler: it always ends, and then the sectors still unknown are exactly those the successful
      reads cover, each once; every other initially unknown sector is marked as failed or skipped, and no other
      sector has changed. */
  method DriveFastPass(extents: seq<Extent>, clusterSize: uint32, ghost capacity: nat) returns (r: Result<State, FastError>, successes: seq<Request>)
    requires Within(extents, capacity) && capacity < TWO_32
    ensures r.Ok? <==> ValidSet(extents) && 0 < clusterSize
    ensures r.Ok? ==> ValidSet(r.value.extents)
    ensures r.Ok? ==> forall x: nat ::
              SectorAccounted(At(extents, x), At(r.value.extents, x), Sum(Covering(x), successes), true)
  {
    hide At, Sum, ValidSet, Within, DispatchFastPass, Invariant, Accounted, Advanced;
    successes := [];
    StartKeepsInvariant(extents, clusterSize, capacity);
    r := StartFastPass(extents, clusterSize);
    if r.Err? {
      return;
    }
    var s := r.value;
    while s.mode != Done
      invariant Invariant(s, capacity) && Idle(s) && s.cursor <= capacity
      invariant Accounted(extents, s, successes)
      decreases Rank(s.mode), capacity - s.cursor, s.mode == Cluster
    {
      DispatchKeepsInvariant(s, true, capacity);
      var (middle, decision) := DispatchFastPass(s, true);
      if decision.value == SaveCheckpoint {
        var next, e := ResolveFastPass(middle, Request(0, 0), false, true, capacity);
        SameView(extents, s, next, successes);
        s := next;
        continue;
      }
      var request := decision.value.request;
      var success: bool := *;
      SameView(extents, s, middle, successes);
      NotCheckpointing(middle, capacity);
      var next, e := ResolveFastPass(middle, request, success, false, capacity);
      AccountedStep(extents, middle, next, successes, request, success);
      Progresses(middle, next, request, success, capacity);
      if success {
        successes := successes + [request];
      }
      s := next;
    }
    DoneAccounted(extents, s, successes, capacity);
    return Ok(s), successes;
  }

  lemma NotCheckpointing(s: State, capacity: nat)
    requires Invariant(s, capacity) && s.active.Some?
    ensures !s.checkpointActive
  {
    hide NextRequest;
  }

  lemma SameView(initial: seq<Extent>, s: State, next: State, successes: seq<Request>)
    requires Accounted(initial, s, successes) && next.extents == s.extents && next.cursor == s.cursor
    ensures Accounted(initial, next, successes)
  {
  }

  lemma StartKeepsInvariant(extents: seq<Extent>, clusterSize: uint32, capacity: nat)
    requires Within(extents, capacity) && capacity < TWO_32
    ensures StartFastPass(extents, clusterSize).Ok? <==> ValidSet(extents) && 0 < clusterSize
    ensures StartFastPass(extents, clusterSize).Ok? ==>
              var s := StartFastPass(extents, clusterSize).value;
              Invariant(s, capacity) && Idle(s) && s.mode == Cluster && s.cursor <= capacity && Accounted(extents, s, [])
  {
  }

  lemma Progresses(s: State, next: State, r: Request, success: bool, capacity: nat)
    requires Invariant(s, capacity) && Invariant(next, capacity) && Advanced(s, next, r, success) && (s.mode == Cluster || s.mode == Single)
    ensures next.cursor <= capacity && Rank(next.mode) <= 2
    ensures s.cursor < next.cursor || (s.cursor == next.cursor && s.mode == Cluster && next.mode == Single)
  {
  }

  lemma DoneAccounted(initial: seq<Extent>, s: State, successes: seq<Request>, capacity: nat)
    requires Invariant(s, capacity) && s.mode == Done && Accounted(initial, s, successes)
    ensures forall x: nat :: SectorAccounted(At(initial, x), At(s.extents, x), Sum(Covering(x), successes), true)
    ensures ValidSet(s.extents)
  {
    hide At, Sum, ValidSet;
    forall x: nat ensures SectorAccounted(At(initial, x), At(s.extents, x), Sum(Covering(x), successes), true) {
      assert SectorAccounted(At(initial, x), At(s.extents, x), Sum(Covering(x), successes), x < s.cursor);
      if IsUnknown(At(s.extents, x)) {
        WithinView(s.extents, capacity, x);
      }
      if s.cursor <= x < capacity {
        assert !IsUnknown(At(s.extents, x));
      }
    }
  }

  /** What the fast pass has not delivered is what the adaptive pass then takes care of: every initially unknown sector
      outside the successful reads is wanted there. */
  lemma AdaptiveTakesTheRest(initial: seq<Extent>, now: seq<Extent>, successes: seq<Request>, lba: nat)
    requires SectorAccounted(At(initial, lba), At(now, lba), Sum(Covering(lba), successes), true)
    requires IsUnknown(At(initial, lba)) && Sum(Covering(lba), successes) == 0
    ensures Bisection.Wanted(now, lba)
    ensures At(now, lba).value.state == IO_ERROR || At(now, lba).value.state == SKIPPED
  {
    hide At, Sum;
  }
}
