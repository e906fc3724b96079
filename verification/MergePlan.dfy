/** Merging the maps of several captures (internal/merge/plan.go, coalesce.go): the plan is an exact partition of the
    medium and says of each sector what the rule cascade says of that sector alone. */
module MergePlanning {
  import opened Prelude
  import opened Transitions
  import opened Extents
  import opened MergeResolution
  import opened Sums

  /** A capture's identity: the sector count, and everything else its match key compares. */
  datatype Identity = Identity(sectorCount: uint64, rest: string, wellFormed: bool) {
    predicate Valid() {
      wellFormed && 0 < sectorCount
    }

    function MatchKey(): (uint64, string) {
      (sectorCount, rest)
    }
  }

  datatype Capture = Capture(captureId: string, identity: Identity, extents: seq<Extent>)

  datatype MergedExtent = MergedExtent(start: uint64, sectors: uint32, resolution: Resolution) {
    function End(): nat {
      start + sectors
    }

    predicate Covers(lba: nat) {
      start <= lba < End()
    }
  }

  datatype MergeError = NoCaptures | BadIdentity | NoCaptureId | IdentityConflict | BadExtents | BeyondMedium

  // ----- what a plan has to say

  function CandidateAt(c: Capture, lba: nat): seq<Candidate> {
    if At(c.extents, lba).Some? then [Candidate(c.captureId, At(c.extents, lba).value)] else []
  }

  /** What the captures say of one sector, in their order. */
  function CandidatesAt(captures: seq<Capture>, lba: nat): seq<Candidate> {
    if captures == [] then []
    else CandidatesAt(captures[..|captures|-1], lba) + CandidateAt(captures[|captures|-1], lba)
  }

  /** The parts of a resolution that two neighbours must share to be joined (coalesce.go:19); the rest of the mark,
      attempts and hash among it, is not compared. */
  function Essence(r: Resolution): (uint8, uint8, string, SelectionRule, seq<Evidence>, bool, seq<Hash>) {
    (r.mark.state, r.mark.confidence, r.selected, r.rule, r.provenance, r.conflict, r.hashes)
  }

  predicate CanMergeExtents(left: MergedExtent, right: MergedExtent) {
    left.End() == right.start && Essence(left.resolution) == Essence(right.resolution)
  }

  /** The extents cover [0, end) without gap or overlap. */
  ghost predicate Tiles(plan: seq<MergedExtent>, end: nat) {
    && (forall i :: 0 <= i < |plan| ==> 0 < plan[i].sectors)
    && (forall i :: 0 < i < |plan| ==> plan[i-1].End() == plan[i].start)
    && (if plan == [] then end == 0 else plan[0].start == 0 && plan[|plan|-1].End() == end)
  }

  ghost predicate Joined(plan: seq<MergedExtent>) {
    forall i :: 0 < i < |plan| ==> !CanMergeExtents(plan[i-1], plan[i])
  }

  ghost predicate Refines(plan: seq<MergedExtent>, captures: seq<Capture>) {
    forall i, lba: nat :: 0 <= i < |plan| && plan[i].Covers(lba) ==>
      Essence(plan[i].resolution) == Essence(Resolve(CandidatesAt(captures, lba)))
  }

  /** Each extent says exactly what its first sector resolves to, data hash and attempts included. */
  ghost predicate Headed(plan: seq<MergedExtent>, captures: seq<Capture>) {
    forall i :: 0 <= i < |plan| ==> plan[i].resolution == Resolve(CandidatesAt(captures, plan[i].start))
  }

  predicate AcceptableCapture(c: Capture, baseline: Identity) {
    c.captureId != "" && c.identity.Valid() && c.identity.MatchKey() == baseline.MatchKey()
    && ValidSet(c.extents) && Within(c.extents, baseline.sectorCount)
  }

  predicate Acceptable(captures: seq<Capture>) {
    captures != [] && captures[0].identity.Valid()
    && forall i :: 0 <= i < |captures| ==> AcceptableCapture(captures[i], captures[0].identity)
  }

  // ----- boundaries

  ghost predicate Sorted(b: seq<uint64>) {
    forall i, j :: 0 <= i < j < |b| ==> b[i] <= b[j]
  }

  ghost predicate Increasing(b: seq<uint64>) {
    forall i, j :: 0 <= i < j < |b| ==> b[i] < b[j]
  }

  function InsertNumber(b: seq<uint64>, x: uint64): (r: seq<uint64>)
    ensures multiset(r) == multiset(b) + multiset{x}
  {
    if b == [] then [x]
    else if x <= b[0] then [x] + b
    else
      assert b == [b[0]] + b[1..];
      [b[0]] + InsertNumber(b[1..], x)
  }

  lemma {:induction false} InsertedAbove(b: seq<uint64>, x: uint64, low: uint64)
    requires low <= x && forall j :: 0 <= j < |b| ==> low <= b[j]
    ensures forall j :: 0 <= j < |InsertNumber(b, x)| ==> low <= InsertNumber(b, x)[j]
  {
    if b != [] {
      InsertedAbove(b[1..], x, low);
    }
  }

  lemma {:induction false} InsertSorted(b: seq<uint64>, x: uint64)
    requires Sorted(b)
    ensures Sorted(InsertNumber(b, x))
  {
    if b != [] && b[0] < x {
      InsertSorted(b[1..], x);
      InsertedAbove(b[1..], x, b[0]);
    }
  }

  /** Stands for the library's sort.Slice over the boundaries. */
  method SortNumbers(b: seq<uint64>) returns (r: seq<uint64>)
    ensures Sorted(r) && forall x :: x in r <==> x in b
  {
    r := [];
    for i := 0 to |b|
      invariant Sorted(r) && multiset(r) == multiset(b[..i])
    {
      assert b[..i+1] == b[..i] + [b[i]];
      InsertSorted(r, b[i]);
      r := InsertNumber(r, b[i]);
    }
    assert b[..|b|] == b;
    assert forall x :: x in r <==> x in multiset(r);
    assert forall x :: x in b <==> x in multiset(b);
  }

  /** uniqueBoundaries (plan.go:70). */
  method UniqueBoundaries(b: seq<uint64>) returns (out: seq<uint64>)
    requires Sorted(b)
    ensures Increasing(out) && forall x :: x in out <==> x in b
  {
    if |b| == 0 {
      return [];
    }
    out := [b[0]];
    for i := 1 to |b|
      invariant out != [] && Increasing(out) && out[|out|-1] == b[i-1]
      invariant forall x :: x in out <==> x in b[..i]
    {
      assert b[..i+1] == b[..i] + [b[i]];
      if b[i] != out[|out|-1] {
        out := out + [b[i]];
      }
    }
    assert b[..|b|] == b;
  }

  // ----- one segment

  function CandidateOver(c: Capture, start: nat, end: nat): seq<Candidate> {
    var e := ExtentAt(c.extents, start);
    if e.Some? && e.value.End() >= end then [Candidate(c.captureId, e.value.mark)] else []
  }

  function CandidatesOver(captures: seq<Capture>, start: nat, end: nat): seq<Candidate> {
    if captures == [] then []
    else CandidatesOver(captures[..|captures|-1], start, end) + CandidateOver(captures[|captures|-1], start, end)
  }

  /** resolveSegment (resolve.go:13). */
  method ResolveSegment(start: uint64, end: uint64, captures: seq<Capture>) returns (m: MergedExtent)
    requires start < end
    ensures m == MergedExtent(start, Wrap32(end - start), Resolve(CandidatesOver(captures, start, end)))
  {
    hide Resolve;
    var candidates: seq<Candidate> := [];
    for i := 0 to |captures|
      invariant candidates == CandidatesOver(captures[..i], start, end)
    {
      assert captures[..i+1][..i] == captures[..i];
      var extent, _ := LookupExtent(captures[i].extents, start);
      if extent.Some? && extent.value.End() >= end {
        candidates := candidates + [Candidate(captures[i].captureId, extent.value.mark)];
      }
    }
    assert captures[..|captures|] == captures;
    var resolution := ResolveCandidates(candidates);
    return MergedExtent(start, Wrap32(end - start), resolution);
  }

  /** No extent begins or ends strictly inside a segment. */
  ghost predicate Undivided(captures: seq<Capture>, start: nat, end: nat) {
    forall k, j :: 0 <= k < |captures| && 0 <= j < |captures[k].extents| ==>
      && !(start < captures[k].extents[j].start < end)
      && !(start < captures[k].extents[j].End() < end)
  }

  lemma SegmentCandidate(c: Capture, start: nat, end: nat, lba: nat)
    requires ValidSet(c.extents) && start <= lba < end
    requires forall j :: 0 <= j < |c.extents| ==> !(start < c.extents[j].start < end) && !(start < c.extents[j].End() < end)
    ensures CandidateOver(c, start, end) == CandidateAt(c, lba)
  {
    if At(c.extents, lba).Some? {
      var i := AtFound(c.extents, lba);
      AtIndex(c.extents, i, start);
      OnlyExtent(c.extents, i, start);
    } else if At(c.extents, start).Some? {
      var i := AtFound(c.extents, start);
      AtIndex(c.extents, i, lba);
    }
  }

  lemma {:induction false} OnlyExtent(s: seq<Extent>, i: nat, lba: nat)
    requires ValidSet(s) && i < |s| && s[i].Covers(lba)
    ensures ExtentAt(s, lba) == Some(s[i])
  {
    ValidSetIsSeparated(s);
    AtIndex(s, i, lba);
    var e := ExtentAt(s, lba).value;
    var k :| 0 <= k < |s| && s[k] == e;
  }

  /** On an undivided segment all sectors have the candidates the segment was resolved with. */
  lemma {:induction false} SegmentCandidates(captures: seq<Capture>, start: nat, end: nat, lba: nat)
    requires Undivided(captures, start, end) && start <= lba < end
    requires forall i :: 0 <= i < |captures| ==> ValidSet(captures[i].extents)
    ensures CandidatesOver(captures, start, end) == CandidatesAt(captures, lba)
  {
    if captures != [] {
      SegmentCandidates(captures[..|captures|-1], start, end, lba);
      SegmentCandidate(captures[|captures|-1], start, end, lba);
    }
  }

  // ----- building the plan

  ghost predicate Bounds(boundaries: seq<uint64>, captures: seq<Capture>, count: nat) {
    && (forall b :: b in boundaries ==> b <= count)
    && 0 in boundaries && count in boundaries
    && forall k :: 0 <= k < |captures| ==> Bounded(captures[k].extents, boundaries)
  }

  ghost predicate Bounded(extents: seq<Extent>, boundaries: seq<uint64>) {
    forall j :: 0 <= j < |extents| ==> extents[j].start in boundaries && extents[j].End() in boundaries
  }

  ghost predicate BoundaryOf(extents: seq<Extent>, b: uint64) {
    exists j :: 0 <= j < |extents| && (b == extents[j].start || b == extents[j].End())
  }

  /** The extents of a capture that fit the medium add their boundaries. */
  method AddBoundaries(boundaries: seq<uint64>, capture: Capture, count: uint64) returns (r: Option<seq<uint64>>)
    requires ValidSet(capture.extents)
    ensures r.None? <==> !Within(capture.extents, count)
    ensures r.Some? ==> forall b :: b in r.value <==> (b in boundaries || BoundaryOf(capture.extents, b))
  {
    var all: seq<uint64> := boundaries;
    for j := 0 to |capture.extents|
      invariant Within(capture.extents[..j], count)
      invariant forall b :: b in all <==> (b in boundaries || BoundaryOf(capture.extents[..j], b))
    {
      if capture.extents[j].End() > count {
        return None;
      }
      OneMoreBoundary(capture.extents, j);
      all := all + [capture.extents[j].start, capture.extents[j].End()];
    }
    assert capture.extents[..|capture.extents|] == capture.extents;
    return Some(all);
  }

  lemma OneMoreBoundary(extents: seq<Extent>, j: nat)
    requires j < |extents|
    ensures forall b :: BoundaryOf(extents[..j+1], b) <==> (BoundaryOf(extents[..j], b) || b == extents[j].start || b == extents[j].End())
  {
    var s, t := extents[..j], extents[..j+1];
    assert t[j] == extents[j];
    forall b ensures BoundaryOf(t, b) <==> (BoundaryOf(s, b) || b == extents[j].start || b == extents[j].End()) {
      if BoundaryOf(s, b) {
        var i :| 0 <= i < |s| && (b == s[i].start || b == s[i].End());
        assert t[i] == s[i];
      }
      if BoundaryOf(t, b) {
        var i :| 0 <= i < |t| && (b == t[i].start || b == t[i].End());
        assert i < j ==> s[i] == t[i];
      }
    }
  }

  method CollectBoundaries(captures: seq<Capture>) returns (r: Result<seq<uint64>, MergeError>)
    requires captures != [] && captures[0].identity.Valid()
    ensures r.Ok? <==> Acceptable(captures)
    ensures r.Ok? ==> Bounds(r.value, captures, captures[0].identity.sectorCount)
  {
    var baseline := captures[0].identity;
    var boundaries: seq<uint64> := [0, baseline.sectorCount];
    for i := 0 to |captures|
      invariant forall k :: 0 <= k < i ==> AcceptableCapture(captures[k], baseline)
      invariant Bounds(boundaries, captures[..i], baseline.sectorCount)
    {
      var capture := captures[i];
      if capture.captureId == "" {
        return Err(NoCaptureId);
      }
      if !capture.identity.Valid() {
        return Err(BadIdentity);
      }
      if capture.identity.MatchKey() != baseline.MatchKey() {
        return Err(IdentityConflict);
      }
      if !ValidSet(capture.extents) {
        return Err(BadExtents);
      }
      var more := AddBoundaries(boundaries, capture, baseline.sectorCount);
      if more.None? {
        return Err(BeyondMedium);
      }
      MoreBounds(boundaries, more.value, captures, i, baseline.sectorCount);
      boundaries := more.value;
    }
    assert captures[..|captures|] == captures;
    return Ok(boundaries);
  }

  lemma MoreBounds(boundaries: seq<uint64>, more: seq<uint64>, captures: seq<Capture>, i: nat, count: nat)
    requires i < |captures| && Bounds(boundaries, captures[..i], count) && Within(captures[i].extents, count) && ValidSet(captures[i].extents)
    requires forall b :: b in more <==> (b in boundaries || BoundaryOf(captures[i].extents, b))
    ensures Bounds(more, captures[..i+1], count)
  {
    var upTo := captures[..i+1];
    forall k | 0 <= k < |upTo| ensures Bounded(upTo[k].extents, more) {
      if k < i {
        assert upTo[k] == captures[..i][k];
        assert Bounded(captures[..i][k].extents, boundaries);
      } else {
        forall j | 0 <= j < |captures[i].extents| ensures captures[i].extents[j].start in more && captures[i].extents[j].End() in more {
          assert BoundaryOf(captures[i].extents, captures[i].extents[j].start);
          assert BoundaryOf(captures[i].extents, captures[i].extents[j].End());
        }
      }
    }
  }

  /** Between neighbouring boundaries no extent begins or ends. */
  lemma NeighboursUndivided(boundaries: seq<uint64>, captures: seq<Capture>, count: nat, i: nat)
    requires Increasing(boundaries) && Bounds(boundaries, captures, count) && i + 1 < |boundaries|
    ensures Undivided(captures, boundaries[i], boundaries[i+1])
  {
    forall b | b in boundaries ensures !(boundaries[i] < b < boundaries[i+1]) {
      var k :| 0 <= k < |boundaries| && boundaries[k] == b;
      assert k <= i || i + 1 <= k;
    }
    forall k, j | 0 <= k < |captures| && 0 <= j < |captures[k].extents|
      ensures !(boundaries[i] < captures[k].extents[j].start < boundaries[i+1])
      ensures !(boundaries[i] < captures[k].extents[j].End() < boundaries[i+1])
    {
      assert Bounded(captures[k].extents, boundaries);
    }
  }

  lemma EndsOfBoundaries(boundaries: seq<uint64>, captures: seq<Capture>, count: nat)
    requires Increasing(boundaries) && Bounds(boundaries, captures, count)
    ensures boundaries != [] && boundaries[0] == 0 && boundaries[|boundaries|-1] == count
  {
    var z :| 0 <= z < |boundaries| && boundaries[z] == 0;
    var c :| 0 <= c < |boundaries| && boundaries[c] == count;
    assert boundaries[|boundaries|-1] in boundaries;
  }

  ghost predicate Planned(plan: seq<MergedExtent>, end: nat, captures: seq<Capture>) {
    Tiles(plan, end) && Joined(plan) && Refines(plan, captures) && Headed(plan, captures)
  }

  ghost predicate FitsAfter(next: MergedExtent, captures: seq<Capture>) {
    0 < next.sectors && next.End() < TWO_32 && Refines([next], captures) && Headed([next], captures)
  }

  /** appendMergedExtent (coalesce.go:7). */
  method AppendMergedExtent(result: seq<MergedExtent>, next: MergedExtent, ghost captures: seq<Capture>) returns (r: seq<MergedExtent>)
    ensures Planned(result, next.start, captures) && FitsAfter(next, captures) ==> Planned(r, next.End(), captures)
  {
    hide Planned, FitsAfter, Resolve, Wrap32, Essence;
    ghost var fits := Planned(result, next.start, captures) && FitsAfter(next, captures);
    if |result| == 0 {
      r := [next];
      if fits {
        FirstAdded(next, captures);
      }
      return;
    }
    var last := result[|result|-1];
    if CanMergeExtents(last, next) {
      var sum := last.(sectors := Wrap32(last.sectors + next.sectors));
      r := result[..|result|-1] + [sum];
      if fits {
        LastGrows(result, next, sum, captures);
      }
      return;
    }
    r := result + [next];
    if fits {
      LastAdded(result, next, captures);
    }
  }

  lemma SumFits(a: nat, b: nat)
    requires a + b < TWO_32
    ensures Wrap32(a + b) == a + b
  {
  }

  lemma FirstAdded(next: MergedExtent, captures: seq<Capture>)
    requires Planned([], next.start, captures) && FitsAfter(next, captures)
    ensures Planned([next], next.End(), captures)
  {
    hide Refines, Headed;
  }

  lemma LastAdded(result: seq<MergedExtent>, next: MergedExtent, captures: seq<Capture>)
    requires result != [] && Planned(result, next.start, captures) && FitsAfter(next, captures)
    requires !CanMergeExtents(result[|result|-1], next)
    ensures Planned(result + [next], next.End(), captures)
  {
    hide Resolve, Essence;
    var r := result + [next];
    assert [next][0] == next;
    forall i, lba: nat | 0 <= i < |r| && r[i].Covers(lba)
      ensures Essence(r[i].resolution) == Essence(Resolve(CandidatesAt(captures, lba)))
    {
      if i == |result| {
        assert [next][0].Covers(lba);
      }
    }
  }

  lemma LastGrows(result: seq<MergedExtent>, next: MergedExtent, sum: MergedExtent, captures: seq<Capture>)
    requires result != [] && Planned(result, next.start, captures) && FitsAfter(next, captures)
    requires CanMergeExtents(result[|result|-1], next)
    requires sum == result[|result|-1].(sectors := Wrap32(result[|result|-1].sectors + next.sectors))
    ensures Planned(result[..|result|-1] + [sum], next.End(), captures)
  {
    hide Resolve, Refines, Headed, Tiles, Joined, Wrap32, Essence;
    assert Tiles(result, next.start);
    SumFits(result[|result|-1].sectors, next.sectors);
    LastGrowsTiles(result, next, sum);
    LastGrowsRefines(result, next, sum, captures);
  }

  lemma LastGrowsTiles(result: seq<MergedExtent>, next: MergedExtent, sum: MergedExtent)
    requires result != [] && Tiles(result, next.start) && Joined(result) && 0 < next.sectors
    requires sum == result[|result|-1].(sectors := sum.sectors) && sum.End() == next.End()
    ensures Tiles(result[..|result|-1] + [sum], next.End()) && Joined(result[..|result|-1] + [sum])
  {
    hide Essence;
    var r := result[..|result|-1] + [sum];
    forall i | 0 < i < |r| ensures r[i-1].End() == r[i].start && !CanMergeExtents(r[i-1], r[i]) {
      assert r[i-1] == result[i-1] && result[i].start == r[i].start && result[i].resolution == r[i].resolution;
      assert !CanMergeExtents(result[i-1], result[i]);
    }
  }

  lemma LastGrowsRefines(result: seq<MergedExtent>, next: MergedExtent, sum: MergedExtent, captures: seq<Capture>)
    requires result != [] && Refines(result, captures) && Headed(result, captures) && Refines([next], captures)
    requires CanMergeExtents(result[|result|-1], next)
    requires sum == result[|result|-1].(sectors := sum.sectors) && sum.End() == next.End()
    ensures Refines(result[..|result|-1] + [sum], captures) && Headed(result[..|result|-1] + [sum], captures)
  {
    hide Resolve, Essence;
    var r, last := result[..|result|-1] + [sum], result[|result|-1];
    assert [next][0] == next;
    forall i, lba: nat | 0 <= i < |r| && r[i].Covers(lba)
      ensures Essence(r[i].resolution) == Essence(Resolve(CandidatesAt(captures, lba)))
    {
      if i < |result| - 1 {
        assert result[i].Covers(lba);
      } else if last.Covers(lba) {
        assert result[|result|-1].Covers(lba);
      } else {
        assert [next][0].Covers(lba);
      }
    }
    forall i | 0 <= i < |r| ensures r[i].resolution == Resolve(CandidatesAt(captures, r[i].start)) {
      assert r[i].resolution == result[i].resolution && r[i].start == result[i].start;
    }
  }

  lemma SegmentRefines(captures: seq<Capture>, m: MergedExtent, start: uint64, end: uint64)
    requires Undivided(captures, start, end) && start < end && m.start == start && m.End() == end
    requires forall i :: 0 <= i < |captures| ==> ValidSet(captures[i].extents)
    requires m.resolution == Resolve(CandidatesOver(captures, start, end))
    ensures Refines([m], captures) && Headed([m], captures)
  {
    hide Resolve, Undivided;
    SegmentCandidates(captures, start, end, start);
    forall i, lba: nat | 0 <= i < |[m]| && [m][i].Covers(lba)
      ensures Essence([m][i].resolution) == Essence(Resolve(CandidatesAt(captures, lba)))
    {
      SegmentCandidates(captures, start, end, lba);
    }
  }

  /** BuildPlan (plan.go:11). */
  method BuildPlan(captures: seq<Capture>) returns (r: Result<seq<MergedExtent>, MergeError>)
    ensures r.Ok? <==> Acceptable(captures)
    ensures r.Ok? && captures[0].identity.sectorCount < TWO_32 ==> Planned(r.value, captures[0].identity.sectorCount, captures)
  {
    hide Resolve, Planned, FitsAfter, Undivided, Bounds, Increasing, Sorted, CandidatesOver, Wrap32, AcceptableCapture;
    if |captures| == 0 {
      return Err(NoCaptures);
    }
    if !captures[0].identity.Valid() {
      return Err(BadIdentity);
    }
    var collected := CollectBoundaries(captures);
    if collected.Err? {
      return Err(collected.error);
    }
    ghost var count := captures[0].identity.sectorCount;
    var sorted := SortNumbers(collected.value);
    SameBounds(collected.value, sorted, captures, count);
    var boundaries := UniqueBoundaries(sorted);
    SameBounds(sorted, boundaries, captures, count);
    EndsOfBoundaries(boundaries, captures, count);
    var merged: seq<MergedExtent> := [];
    NothingPlanned(captures);
    for i := 0 to |boundaries| - 1
      invariant count < TWO_32 ==> Planned(merged, boundaries[i], captures)
    {
      var start, end := boundaries[i], boundaries[i+1];
      // The boundaries increase, so the source's guard against empty segments never fires.
      StepUp(boundaries, captures, count, i);
      var segment := ResolveSegment(start, end, captures);
      if count < TWO_32 {
        SegmentFits(boundaries, captures, count, i, start, end, segment);
      }
      merged := AppendMergedExtent(merged, segment, captures);
    }
    return Ok(merged);
  }

  lemma SegmentFits(boundaries: seq<uint64>, captures: seq<Capture>, count: nat, i: nat, start: nat, end: nat, segment: MergedExtent)
    requires Increasing(boundaries) && Bounds(boundaries, captures, count) && i + 1 < |boundaries| && count < TWO_32
    requires start == boundaries[i] && end == boundaries[i+1] && start < end
    requires forall k :: 0 <= k < |captures| ==> AcceptableCapture(captures[k], captures[0].identity)
    requires segment == MergedExtent(start, Wrap32(end - start), Resolve(CandidatesOver(captures, start, end)))
    ensures FitsAfter(segment, captures) && segment.start == start && segment.End() == end
  {
    hide Resolve, Undivided, Refines, Headed, CandidatesOver, Wrap32, Bounds, Increasing, ValidSet, Within;
    NeighboursUndivided(boundaries, captures, count, i);
    StepUp(boundaries, captures, count, i);
    var sectors := end - start;
    SumFits(0, sectors);
    SegmentRefines(captures, segment, start, end);
  }

  lemma NothingPlanned(captures: seq<Capture>)
    ensures Planned([], 0, captures)
  {
  }

  lemma StepUp(boundaries: seq<uint64>, captures: seq<Capture>, count: nat, i: nat)
    requires Increasing(boundaries) && Bounds(boundaries, captures, count) && i + 1 < |boundaries|
    ensures boundaries[i] < boundaries[i+1] <= count
  {
    assert boundaries[i+1] in boundaries;
  }

  lemma SameBounds(a: seq<uint64>, b: seq<uint64>, captures: seq<Capture>, count: nat)
    requires Bounds(a, captures, count) && forall x :: x in a <==> x in b
    ensures Bounds(b, captures, count)
  {
  }

  // ----- reading a plan

  /** A tiling gives every sector of the medium to exactly one extent. */
  lemma {:induction false} TilesCover(plan: seq<MergedExtent>, end: nat, lba: nat) returns (k: nat)
    requires Tiles(plan, end) && lba < end
    ensures k < |plan| && plan[k].Covers(lba)
    ensures forall i :: 0 <= i < |plan| && plan[i].Covers(lba) ==> i == k
  {
    var last := plan[|plan|-1];
    TilesOrdered(plan, end);
    if last.Covers(lba) {
      k := |plan| - 1;
    } else {
      k := TilesCover(plan[..|plan|-1], last.start, lba);
    }
  }

  lemma {:induction false} TilesOrdered(plan: seq<MergedExtent>, end: nat)
    requires Tiles(plan, end)
    ensures forall i, j :: 0 <= i < j < |plan| ==> plan[i].End() <= plan[j].start
  {
    if |plan| > 1 {
      var p, last := plan[..|plan|-1], plan[|plan|-1];
      TilesOrdered(p, last.start);
      forall i, j | 0 <= i < j < |plan| ensures plan[i].End() <= plan[j].start {
        if j < |p| {
          assert p[i].End() <= p[j].start;
        } else if i < |p| - 1 {
          assert p[i].End() <= p[|p|-1].start;
        }
      }
    }
  }

  // ----- the order of the captures

  lemma {:induction false} CandidatesPermute(a: seq<Capture>, b: seq<Capture>, lba: nat)
    requires multiset(a) == multiset(b)
    ensures multiset(CandidatesAt(a, lba)) == multiset(CandidatesAt(b, lba))
  {
    assert |multiset(a)| == |a| && |multiset(b)| == |b|;
    if a != [] {
      hide CandidatesAt, CandidateAt;
      var i := TakeOut(a, b);
      var p, q := a[..|a|-1], b[..i] + b[i+1..];
      CandidatesPermute(p, q, lba);
      CandidatesWithout(b, i, lba);
      CandidatesWithout(a, |a|-1, lba);
      assert a[..|a|-1] + a[|a|..] == p;
    }
  }

  lemma CandidatesWithout(b: seq<Capture>, i: nat, lba: nat)
    requires i < |b|
    ensures multiset(CandidatesAt(b, lba)) == multiset(CandidatesAt(b[..i] + b[i+1..], lba)) + multiset(CandidateAt(b[i], lba))
  {
    hide CandidatesAt, CandidateAt;
    var p, q := b[..i], b[i+1..];
    assert b == (p + [b[i]]) + q;
    CandidatesConcat(p + [b[i]], q, lba);
    CandidatesConcat(p, [b[i]], lba);
    CandidatesConcat(p, q, lba);
    OneCandidate(b[i], lba);
  }

  lemma OneCandidate(c: Capture, lba: nat)
    ensures CandidatesAt([c], lba) == CandidateAt(c, lba)
  {
    assert [c][..0] == [];
  }

  lemma {:induction false} CandidatesConcat(a: seq<Capture>, b: seq<Capture>, lba: nat)
    ensures CandidatesAt(a + b, lba) == CandidatesAt(a, lba) + CandidatesAt(b, lba)
  {
    if b == [] {
      assert a + b == a;
    } else {
      assert (a + b)[..|a + b|-1] == a + b[..|b|-1];
      CandidatesConcat(a, b[..|b|-1], lba);
      Associative(CandidatesAt(a, lba), CandidatesAt(b[..|b|-1], lba), CandidateAt(b[|b|-1], lba));
    }
  }

  lemma AcceptableIsSymmetric(a: seq<Capture>, b: seq<Capture>)
    requires multiset(a) == multiset(b) && Acceptable(a)
    ensures Acceptable(b) && b[0].identity.sectorCount == a[0].identity.sectorCount
  {
    hide ValidSet, Within;
    assert |multiset(a)| == |a| && |multiset(b)| == |b|;
    forall i | 0 <= i < |b| ensures AcceptableCapture(b[i], a[0].identity) {
      assert b[i] in multiset(b);
      assert b[i] in multiset(a);
      var k :| 0 <= k < |a| && a[k] == b[i];
    }
    assert AcceptableCapture(b[0], a[0].identity);
  }

  /** Merging is symmetric: plans for the same captures in any order give every sector the same verdict, apart from
      which of several agreeing captures is named. */
  lemma PlansAgree(a: seq<Capture>, b: seq<Capture>, p: seq<MergedExtent>, q: seq<MergedExtent>, i: nat, j: nat, lba: nat)
    requires multiset(a) == multiset(b) && Refines(p, a) && Refines(q, b)
    requires i < |p| && p[i].Covers(lba) && j < |q| && q[j].Covers(lba)
    ensures var r, s := p[i].resolution, q[j].resolution;
            && r.mark.state == s.mark.state && r.mark.confidence == s.mark.confidence && r.rule == s.rule
            && r.hashes == s.hashes && r.provenance == s.provenance && r.conflict == s.conflict
  {
    hide Resolve;
    CandidatesPermute(a, b, lba);
    ResolveIsSymmetric(CandidatesAt(a, lba), CandidatesAt(b, lba));
    assert Essence(p[i].resolution) == Essence(Resolve(CandidatesAt(a, lba)));
    assert Essence(q[j].resolution) == Essence(Resolve(CandidatesAt(b, lba)));
  }

  /** No data is made up: where a plan shows data, some capture offers data for that very sector. */
  lemma {:induction false} PlanIsConservative(captures: seq<Capture>, p: seq<MergedExtent>, i: nat, lba: nat) returns (k: nat)
    requires Refines(p, captures) && i < |p| && p[i].Covers(lba) && p[i].resolution.mark.state != MISSING
    ensures k < |captures| && At(captures[k].extents, lba).Some? && OffersData(At(captures[k].extents, lba).value)
    ensures !p[i].resolution.conflict ==>
              captures[k].captureId == p[i].resolution.selected && At(captures[k].extents, lba).value.hash in p[i].resolution.hashes
  {
    hide Resolve;
    var cs := CandidatesAt(captures, lba);
    ResolveIsConservative(cs);
    assert Essence(p[i].resolution) == Essence(Resolve(cs));
    var c: Candidate;
    if Resolve(cs).conflict {
      c :| c in cs && OffersData(c.mark);
    } else {
      c :| c in cs && c.captureId == Resolve(cs).selected && OffersData(c.mark) && c.mark.hash == Resolve(cs).mark.hash;
    }
    k := CandidateSource(captures, lba, c);
  }

  /** Outside conflicts, the data hash of an extent that shows data is among the hashes listed with it. */
  lemma PlanListsItsHash(captures: seq<Capture>, p: seq<MergedExtent>, i: nat)
    requires Headed(p, captures) && i < |p| && p[i].resolution.mark.state != MISSING && !p[i].resolution.conflict
    ensures OffersData(p[i].resolution.mark) && p[i].resolution.mark.hash in p[i].resolution.hashes
  {
    hide Resolve;
    ResolveIsConservative(CandidatesAt(captures, p[i].start));
  }

  lemma {:induction false} CandidateSource(captures: seq<Capture>, lba: nat, c: Candidate) returns (k: nat)
    requires c in CandidatesAt(captures, lba)
    ensures k < |captures| && At(captures[k].extents, lba) == Some(c.mark) && captures[k].captureId == c.captureId
  {
    if c in CandidateAt(captures[|captures|-1], lba) {
      k := |captures| - 1;
    } else {
      k := CandidateSource(captures[..|captures|-1], lba, c);
    }
  }
}
