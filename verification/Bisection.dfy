/** The adaptive scheduler (internal/recovery/adaptive_pass.go): candidates are probed by halves until they are small
    or deep enough to be left to the scrape pass. */
module Bisection {
  import opened Prelude
  import opened Transitions
  import opened Extents
  import opened Sums
  import opened Requests

  // ----- the scheduler's state

  datatype Direction = LeftFirst | RightFirst

  datatype Candidate = Candidate(extent: Extent, depth: uint16, distance: uint64)

  datatype State = State(queue: seq<Candidate>, threshold: uint32, maxDepth: uint16, head: uint64, done: bool, direction: Direction,
                         activeRequest: Option<Request>, activeDeferred: Option<Extent>, activeDirection: Direction,
                         activeCandidate: Option<Candidate>, deferred: seq<Extent>)

  datatype Decision = Read(request: Request, direction: Direction) | Wait | Defer(extent: Extent) | Finished

  datatype AdaptiveError = BadExtents | BadThreshold | BadDepth | StillActive | NothingActive | WrongOutcome | CannotSplit

  /** schedulableAdaptiveState (adaptive_pass.go:294). */
  predicate Schedulable(state: uint8) {
    state == UNKNOWN || state == SKIPPED || state == IO_ERROR || state == MISSING || state == CHECKSUM_ERROR
  }

  /** A pass leaves alone what is queued and what has data that no checksum contradicts. */
  lemma SchedulableIff(m: Mark)
    requires ValidMark(m)
    ensures Schedulable(m.state) <==> m.state != QUEUED && (m.ClaimsData() ==> m.state == CHECKSUM_ERROR)
  {
  }

  /** distanceToHead (adaptive_pass.go:277). */
  function Distance(e: Extent, head: uint64): uint64 {
    if head < e.start then e.start - head
    else if head >= e.End() then Wrap64(head - e.End() + 1)
    else 0
  }

  function Gap(a: nat, b: nat): nat {
    if a < b then b - a else a - b
  }

  /** It is how far the nearest sector of the extent is from the head. */
  lemma DistanceIsNearest(e: Extent, head: uint64)
    requires e.Valid()
    ensures forall x: nat :: e.Covers(x) ==> Distance(e, head) <= Gap(head, x)
    ensures exists x: nat :: e.Covers(x) && Distance(e, head) == Gap(head, x)
  {
    var nearest := if head < e.start then e.start else if head >= e.End() then e.End() - 1 else head;
    assert e.Covers(nearest) && Distance(e, head) == Gap(head, nearest);
  }

  /** The order of sortAdaptiveQueue (adaptive_pass.go:254): large before small, few attempts before many, near before
      far. */
  predicate Before(a: Candidate, b: Candidate) {
    if a.extent.sectors != b.extent.sectors then a.extent.sectors > b.extent.sectors
    else if a.extent.mark.attempts != b.extent.mark.attempts then a.extent.mark.attempts < b.extent.mark.attempts
    else if a.distance != b.distance then a.distance < b.distance
    else a.extent.start < b.extent.start
  }

  /** The larger goes first; of two alike the less often tried, then the nearer, then the one that starts earlier. */
  predicate GoesFirst(a: Candidate, b: Candidate) {
    var (m, n) := (a.extent.mark.attempts, b.extent.mark.attempts);
    && b.extent.sectors <= a.extent.sectors
    && (a.extent.sectors == b.extent.sectors ==> m <= n)
    && (a.extent.sectors == b.extent.sectors && m == n ==> a.distance <= b.distance)
    && (a.extent.sectors == b.extent.sectors && m == n && a.distance == b.distance ==> a.extent.start <= b.extent.start)
  }

  ghost predicate Ordered(q: seq<Candidate>) {
    forall i, j :: 0 <= i < j < |q| ==> !Before(q[j], q[i])
  }

  function InsertCandidate(q: seq<Candidate>, c: Candidate): (r: seq<Candidate>)
    ensures multiset(r) == multiset(q) + multiset{c}
  {
    if q == [] then [c]
    else if Before(q[0], c) then
      assert q == [q[0]] + q[1..];
      [q[0]] + InsertCandidate(q[1..], c)
    else [c] + q
  }

  lemma {:induction false} InsertedBehind(q: seq<Candidate>, c: Candidate, first: Candidate)
    requires !Before(c, first) && forall j :: 0 <= j < |q| ==> !Before(q[j], first)
    ensures forall j :: 0 <= j < |InsertCandidate(q, c)| ==> !Before(InsertCandidate(q, c)[j], first)
  {
    hide Before;
    if q != [] {
      InsertedBehind(q[1..], c, first);
    }
  }

  lemma {:induction false} InsertOrdered(q: seq<Candidate>, c: Candidate)
    requires Ordered(q)
    ensures Ordered(InsertCandidate(q, c))
  {
    if q != [] {
      if Before(q[0], c) {
        InsertOrdered(q[1..], c);
        InsertedBehind(q[1..], c, q[0]);
      } else {
        forall j | 0 <= j < |q| ensures !Before(q[j], c) {
        }
      }
    }
  }

  /** Stands for the library's sort.Slice. */
  method SortQueue(q: seq<Candidate>) returns (r: seq<Candidate>)
    ensures Ordered(r) && multiset(r) == multiset(q)
  {
    r := [];
    for i := 0 to |q|
      invariant Ordered(r) && multiset(r) == multiset(q[..i])
    {
      assert q[..i+1] == q[..i] + [q[i]];
      InsertOrdered(r, q[i]);
      r := InsertCandidate(r, q[i]);
    }
    assert q[..|q|] == q;
  }

  function Seen(c: Candidate, head: uint64): Candidate {
    c.(distance := Distance(c.extent, head))
  }

  function Refreshed(q: seq<Candidate>, head: uint64): seq<Candidate> {
    seq(|q|, i requires 0 <= i < |q| => Seen(q[i], head))
  }

  /** refreshAdaptiveHeadDistances (adaptive_pass.go:271). */
  method RefreshDistances(q: seq<Candidate>, head: uint64) returns (r: seq<Candidate>)
    ensures r == Refreshed(q, head)
  {
    r := q;
    for i := 0 to |q|
      invariant |r| == |q|
      invariant forall k :: 0 <= k < i ==> r[k] == Seen(q[k], head)
      invariant forall k :: i <= k < |r| ==> r[k] == q[k]
    {
      r := r[i := Seen(r[i], head)];
    }
  }

  // ----- halving

  /** SplitExtent (internal/mapfile/extent_ops.go:34). */
  function SplitExtent(e: Extent, at: nat): Option<(Extent, Extent)> {
    if !e.Valid() || at <= e.start || e.End() <= at then None
    else Some((e.(sectors := at - e.start), Extent(at, e.End() - at, e.mark)))
  }

  function Split(c: Candidate): Option<(Candidate, Candidate)> {
    var halves := SplitExtent(c.extent, c.extent.start + c.extent.sectors / 2);
    if halves.None? then None
    else
      var depth := Wrap16(c.depth + 1);
      Some((Candidate(halves.value.0, depth, c.distance), Candidate(halves.value.1, depth, c.distance)))
  }

  /** A valid candidate can be halved exactly when it has two sectors. */
  lemma SplitSucceedsIff(c: Candidate)
    requires c.extent.Valid()
    ensures Split(c).Some? <==> c.extent.sectors >= 2
  {
  }

  lemma SplitCovers(c: Candidate, lba: nat)
    requires c.extent.Valid() && Split(c).Some?
    ensures var (left, right) := Split(c).value;
            && left.extent.Valid() && right.extent.Valid()
            && CoveringCandidate(lba)(c) == CoveringCandidate(lba)(left) + CoveringCandidate(lba)(right)
  {
  }

  function Tried(c: Candidate): Candidate {
    c.(extent := c.extent.(mark := c.extent.mark.(attempts := Wrap16(c.extent.mark.attempts + 1))))
  }

  /** The halves meet in the middle, the first being the smaller by at most one sector, with one attempt and one split more
      (modulo 2^16). */
  lemma HalvesMeet(c: Candidate)
    requires c.extent.Valid() && 2 <= c.extent.sectors
    ensures var (left, right) := (Tried(Split(c).value.0), Tried(Split(c).value.1));
            && left.extent.start == c.extent.start && left.extent.End() == right.extent.start && right.extent.End() == c.extent.End()
            && left.extent.sectors <= right.extent.sectors <= left.extent.sectors + 1
            && left.extent.mark == right.extent.mark == c.extent.mark.(attempts := (c.extent.mark.attempts + 1) % 0x1_0000)
            && left.depth == right.depth == (c.depth + 1) % 0x1_0000
  {
  }

  /** The two candidates a halved one is replaced by. */
  function Halves(c: Candidate): multiset<Candidate>
    requires Split(c).Some?
  {
    multiset{Tried(Split(c).value.0), Tried(Split(c).value.1)}
  }

  function Probe(c: Candidate, direction: Direction): Option<Request> {
    if Split(c).None? then None
    else
      var first := if direction == RightFirst then Split(c).value.1 else Split(c).value.0;
      Some(Request(first.extent.start, first.extent.sectors))
  }

  // ----- start, dispatch, resolve

  /** StartAdaptivePass (adaptive_pass.go:67). */
  method StartAdaptivePass(extents: seq<Extent>, threshold: uint32, maxDepth: uint16, head: uint64) returns (r: Result<State, AdaptiveError>)
    ensures r.Ok? <==> ValidSet(extents) && threshold > 0 && maxDepth > 0
    ensures r.Ok? ==> Invariant(r.value) && Idle(r.value) && r.value.threshold == threshold && r.value.maxDepth == maxDepth
    ensures r.Ok? ==> forall lba: nat :: Share(r.value, lba) == if Wanted(extents, lba) then 1 else 0
    ensures r.Ok? ==> |r.value.queue| <= |extents| && Measure(r.value) <= |extents| * Weight(maxDepth)
    ensures r.Ok? ==> (AllLong(r.value.queue, maxDepth) <==> LongEnough(extents, maxDepth))
  {
    hide Queues, Invariant, Share, Measure, Wanted, Weight, AllLong, LongEnough, Ordered;
    if !ValidSet(extents) {
      return Err(BadExtents);
    }
    if threshold == 0 {
      return Err(BadThreshold);
    }
    if maxDepth == 0 {
      return Err(BadDepth);
    }
    var queue: seq<Candidate> := [];
    QueuesNothing(extents, maxDepth);
    for i := 0 to |extents|
      invariant Queues(queue, extents, i, maxDepth)
    {
      var c := Candidate(extents[i], 0, Distance(extents[i], head));
      QueuesMore(queue, extents, i, c, maxDepth);
      if !Schedulable(extents[i].mark.state) {
        continue;
      }
      queue := queue + [c];
    }
    var sorted := SortQueue(queue);
    var s := State(sorted, threshold, maxDepth, head, false, LeftFirst, None, None, LeftFirst, None, []);
    QueuesAll(queue, extents, s);
    return Ok(s);
  }

  /** The queue made of the first n extents. */
  ghost predicate Queues(queue: seq<Candidate>, extents: seq<Extent>, n: nat, maxDepth: nat)
    requires n <= |extents|
  {
    && |queue| <= n && (forall k :: 0 <= k < |queue| ==> queue[k].extent.Valid() && queue[k].depth == 0)
    && (forall lba: nat :: Sum(CoveringCandidate(lba), queue) == if Wanted(extents[..n], lba) then 1 else 0)
    && Sum(WeightOf(maxDepth), queue) <= n * Weight(maxDepth)
    && (AllLong(queue, maxDepth) <==> LongEnough(extents[..n], maxDepth))
  }

  lemma QueuesNothing(extents: seq<Extent>, maxDepth: nat)
    ensures Queues([], extents, 0, maxDepth)
  {
  }

  lemma QueuesMore(queue: seq<Candidate>, extents: seq<Extent>, i: nat, c: Candidate, maxDepth: uint16)
    requires ValidSet(extents) && i < |extents| && Queues(queue, extents, i, maxDepth)
    requires c.extent == extents[i] && c.depth == 0 && 0 < maxDepth
    ensures Queues(if Schedulable(c.extent.mark.state) then queue + [c] else queue, extents, i + 1, maxDepth)
  {
    hide Sum, Wanted, Weight, Power, AllLong, LongEnough;
    WantedNext(extents, i);
    MoreWeight(i, maxDepth);
    LongNext(extents, i, queue, c, maxDepth);
    if Schedulable(c.extent.mark.state) {
      forall lba: nat ensures Sum(CoveringCandidate(lba), queue + [c]) == if Wanted(extents[..i+1], lba) then 1 else 0 {
        SumConcat(CoveringCandidate(lba), queue, [c]);
        SumOne(CoveringCandidate(lba), c);
        assert Sum(CoveringCandidate(lba), queue) == if Wanted(extents[..i], lba) then 1 else 0;
      }
      SumConcat(WeightOf(maxDepth), queue, [c]);
      SumOne(WeightOf(maxDepth), c);
    }
  }

  lemma QueuesAll(queue: seq<Candidate>, extents: seq<Extent>, s: State)
    requires Queues(queue, extents, |extents|, s.maxDepth) && multiset(s.queue) == multiset(queue)
    requires Idle(s) && !s.done && s.deferred == [] && 0 < s.maxDepth && 0 < s.threshold
    ensures Invariant(s) && forall lba: nat :: Share(s, lba) == if Wanted(extents, lba) then 1 else 0
    ensures |s.queue| <= |extents| && Measure(s) <= |extents| * Weight(s.maxDepth)
    ensures AllLong(s.queue, s.maxDepth) <==> LongEnough(extents, s.maxDepth)
  {
    hide Sum, Share, Measure, Wanted, Weight, Long, LongEnough;
    assert extents[..|extents|] == extents;
    SumPermutes(WeightOf(s.maxDepth), queue, s.queue);
    SameMembers(queue, s.queue);
    PermutedLong(queue, s.queue, s.maxDepth);
    NothingElse(s);
    forall lba: nat ensures Share(s, lba) == if Wanted(extents, lba) then 1 else 0 {
      SumPermutes(CoveringCandidate(lba), queue, s.queue);
    }
  }

  lemma MoreWeight(i: nat, k: nat)
    ensures (i + 1) * Weight(k) == i * Weight(k) + Weight(k)
  {
  }

  lemma NothingElse(s: State)
    requires s.activeCandidate.None? && s.deferred == []
    ensures forall lba: nat :: Share(s, lba) == Sum(CoveringCandidate(lba), s.queue)
    ensures Measure(s) == Sum(WeightOf(s.maxDepth), s.queue)
  {
  }

  lemma SameMembers(a: seq<Candidate>, b: seq<Candidate>)
    requires multiset(a) == multiset(b)
    ensures |a| == |b| && forall k :: 0 <= k < |b| ==> b[k] in a
  {
    assert |multiset(a)| == |a| && |multiset(b)| == |b|;
    forall k | 0 <= k < |b| ensures b[k] in a {
      assert b[k] in multiset(b);
      assert b[k] in multiset(a);
    }
  }

  /** The sectors a pass over this list has to take care of. */
  predicate Wanted(extents: seq<Extent>, lba: nat) {
    At(extents, lba).Some? && Schedulable(At(extents, lba).value.state)
  }

  lemma WantedNext(extents: seq<Extent>, i: nat)
    requires ValidSet(extents) && i < |extents|
    ensures forall lba: nat :: Wanted(extents[..i+1], lba) <==>
              (Wanted(extents[..i], lba) || (extents[i].Covers(lba) && Schedulable(extents[i].mark.state)))
    ensures forall lba: nat :: extents[i].Covers(lba) ==> !Wanted(extents[..i], lba)
  {
    var p, e := extents[..i], extents[i];
    assert extents[..i+1] == p + [e];
    ValidSetIsSeparated(extents);
    forall lba: nat
      ensures Wanted(p + [e], lba) <==> (Wanted(p, lba) || (e.Covers(lba) && Schedulable(e.mark.state)))
      ensures e.Covers(lba) ==> !Wanted(p, lba)
    {
      AtConcat(p, [e], lba);
      AtOne(e, lba);
      AtNone(p, lba);
    }
  }

  /** DispatchAdaptivePass (adaptive_pass.go:101). */
  method DispatchAdaptivePass(s: State, writerAvailable: bool) returns (next: State, r: Result<Decision, AdaptiveError>)
    requires Invariant(s)
    ensures Invariant(next) && next.threshold == s.threshold && next.maxDepth == s.maxDepth
    ensures forall lba: nat :: Share(next, lba) == Share(s, lba)
    ensures Measure(next) == Measure(s)
    ensures Idle(s) && 2 <= s.threshold ==> r.Ok?
    ensures r.Ok? ==> Idle(s)
    ensures r.Ok? && writerAvailable && !s.done ==>
              if s.queue == [] then r.value == Finished && next == s.(done := true)
              else !Idle(next) && (r.value.Read? || r.value.Defer?)
    ensures r.Ok? && r.value.Read? ==> next.activeRequest == Some(r.value.request) && next.activeDirection == s.direction
    ensures r.Ok? && r.value.Read? ==> next.activeCandidate.Some? && Probe(next.activeCandidate.value, s.direction) == next.activeRequest
    ensures next.activeCandidate.Some? && r.Ok? ==>
              (r.value.Defer? <==> next.activeCandidate.value.extent.sectors < s.threshold || next.activeCandidate.value.depth >= s.maxDepth)
    ensures r.Err? ==> Refused(s, writerAvailable)
    ensures Refused(s, writerAvailable) && SharedOnce(s) ==> r.Err?
    ensures r.Err? ==> next == s
    ensures r.Ok? && (r.value.Read? || r.value.Defer?) ==>
              && next.activeCandidate.Some? && multiset([next.activeCandidate.value] + next.queue) == multiset(Refreshed(s.queue, s.head))
              && forall c :: c in next.queue ==> GoesFirst(next.activeCandidate.value, c)
  {
    hide Sum, Share, Measure, SharedOnce;
    if s.threshold == 0 {
      return s, Err(BadThreshold);
    }
    if s.maxDepth == 0 {
      return s, Err(BadDepth);
    }
    if s.activeRequest.Some? || s.activeDeferred.Some? || s.activeCandidate.Some? {
      return s, Err(StillActive);
    }
    if s.done {
      return s, Ok(Finished);
    }
    if !writerAvailable {
      return s, Ok(Wait);
    }
    if |s.queue| == 0 {
      next := s.(done := true);
      SameShares(s, next);
      return next, Ok(Finished);
    }
    var refreshed := RefreshDistances(s.queue, s.head);
    var sorted := SortQueue(refreshed);
    var candidate, remaining := sorted[0], sorted[1..];
    SameMembers(refreshed, sorted);
    assert sorted == [candidate] + remaining;
    FirstOfSorted(sorted);
    Chosen(s, sorted);
    if candidate.extent.sectors < s.threshold || candidate.depth >= s.maxDepth {
      next := s.(queue := remaining, activeDeferred := Some(candidate.extent), activeCandidate := Some(candidate));
      MovedToActive(s, refreshed, sorted, next);
      return next, Ok(Defer(candidate.extent));
    }
    var request := Probe(candidate, s.direction);
    SplitSucceedsIff(candidate);
    if request.None? {
      return s, Err(CannotSplit);
    }
    next := s.(queue := remaining, activeRequest := request, activeCandidate := Some(candidate), activeDirection := s.direction);
    MovedToActive(s, refreshed, sorted, next);
    return next, Ok(Read(request.value, s.direction));
  }

  /** The candidates a sort may put first. */
  predicate Foremost(s: State, c: Candidate) {
    c in s.queue && forall d :: d in s.queue ==> !Before(Seen(d, s.head), Seen(c, s.head))
  }

  /** A single sector that is neither small nor deep enough to be left alone. */
  predicate Stuck(s: State, c: Candidate) {
    s.threshold == 1 && c.extent.sectors == 1 && c.depth < s.maxDepth
  }

  /** What a dispatch fails on. */
  ghost predicate Refused(s: State, writerAvailable: bool) {
    !Idle(s) || (writerAvailable && !s.done && exists c :: Foremost(s, c) && Stuck(s, c))
  }

  ghost predicate SharedOnce(s: State) {
    forall lba: nat :: Share(s, lba) <= 1
  }

  lemma FirstOfSorted(sorted: seq<Candidate>)
    requires Ordered(sorted) && sorted != []
    ensures forall c :: c in sorted[1..] ==> GoesFirst(sorted[0], c)
  {
    forall c | c in sorted[1..] ensures GoesFirst(sorted[0], c) {
      var j :| 0 <= j < |sorted[1..]| && sorted[1..][j] == c;
      assert !Before(sorted[j + 1], sorted[0]);
    }
  }

  /** The first of the sorted queue is a foremost candidate, and the only one when no sector is queued twice. */
  lemma Chosen(s: State, sorted: seq<Candidate>)
    requires Invariant(s) && multiset(sorted) == multiset(Refreshed(s.queue, s.head)) && Ordered(sorted) && sorted != []
    ensures exists c :: Foremost(s, c) && Seen(c, s.head) == sorted[0]
    ensures SharedOnce(s) ==> forall c :: Foremost(s, c) ==> Seen(c, s.head) == sorted[0]
  {
    hide SharedOnce;
    var q := Refreshed(s.queue, s.head);
    SameMembers(q, sorted);
    SameMembers(sorted, q);
    forall c | c in sorted ensures !Before(c, sorted[0]) {
      var j :| 0 <= j < |sorted| && sorted[j] == c;
      assert j == 0 || !Before(sorted[j], sorted[0]);
    }
    forall d | d in s.queue ensures Seen(d, s.head) in q {
      var k :| 0 <= k < |s.queue| && s.queue[k] == d;
      assert q[k] == Seen(d, s.head);
    }
    var i :| 0 <= i < |q| && q[i] == sorted[0];
    var first := s.queue[i];
    assert Foremost(s, first) && Seen(first, s.head) == sorted[0];
    if SharedOnce(s) {
      forall c | Foremost(s, c) ensures Seen(c, s.head) == sorted[0] {
        var k :| 0 <= k < |s.queue| && s.queue[k] == c;
        assert !Before(Seen(first, s.head), Seen(c, s.head)) && !Before(Seen(c, s.head), Seen(first, s.head));
        if k != i {
          QueuedTwice(s, i, k);
        }
      }
    }
  }

  lemma QueuedTwice(s: State, i: nat, k: nat)
    requires Invariant(s) && i < |s.queue| && k < |s.queue| && i != k && s.queue[i].extent.start == s.queue[k].extent.start
    ensures !SharedOnce(s)
  {
    hide Sum;
    var lba := s.queue[i].extent.start;
    assert s.queue[i].extent.Covers(lba) && s.queue[k].extent.Covers(lba);
    if i < k {
      SumHoldsBoth(CoveringCandidate(lba), s.queue, i, k);
    } else {
      SumHoldsBoth(CoveringCandidate(lba), s.queue, k, i);
    }
    assert Share(s, lba) >= 2;
  }

  lemma SameShares(s: State, next: State)
    requires next.queue == s.queue && next.activeCandidate == s.activeCandidate && next.deferred == s.deferred && next.maxDepth == s.maxDepth
    ensures forall lba: nat :: Share(next, lba) == Share(s, lba)
    ensures Measure(next) == Measure(s)
  {
  }

  lemma MovedToActive(s: State, refreshed: seq<Candidate>, sorted: seq<Candidate>, next: State)
    requires Idle(s) && refreshed == Refreshed(s.queue, s.head) && multiset(sorted) == multiset(refreshed) && sorted != []
    requires next.queue == sorted[1..] && next.activeCandidate == Some(sorted[0]) && next.deferred == s.deferred && next.maxDepth == s.maxDepth
    ensures forall lba: nat :: Share(next, lba) == Share(s, lba)
    ensures Measure(next) == Measure(s)
  {
    hide Sum;
    forall lba: nat ensures Share(next, lba) == Share(s, lba) {
      SumSame(CoveringCandidate(lba), s.queue, refreshed);
      SumPermutes(CoveringCandidate(lba), refreshed, sorted);
      SumFirst(CoveringCandidate(lba), sorted);
    }
    SumSame(WeightOf(s.maxDepth), s.queue, refreshed);
    SumPermutes(WeightOf(s.maxDepth), refreshed, sorted);
    SumFirst(WeightOf(s.maxDepth), sorted);
  }

  /** ResolveAdaptivePass (adaptive_pass.go:157): both halves go back to the queue, whatever the outcome. */
  method ResolveAdaptivePass(s: State, request: Request, success: bool) returns (next: State, e: Option<AdaptiveError>)
    requires Invariant(s)
    ensures Invariant(next) && next.threshold == s.threshold && next.maxDepth == s.maxDepth
    ensures forall lba: nat :: Share(next, lba) == Share(s, lba)
    ensures e.None? ==> Idle(next) && Measure(next) < Measure(s)
    ensures e.None? && s.activeRequest.Some? ==>
              next.head == request.start && next.direction != s.activeDirection && next.deferred == s.deferred
              && Split(s.activeCandidate.value).Some? && multiset(next.queue) == multiset(s.queue) + Halves(s.activeCandidate.value)
    ensures e.None? && s.activeDeferred.Some? ==> next.deferred == s.deferred + [s.activeDeferred.value] && next.queue == s.queue
    ensures e.None? && s.activeDeferred.Some? ==> next.done == (s.done || s.queue == []) && next.head == s.head && next.direction == s.direction
    ensures e.Some? ==> next == s
    ensures e.None? <==> !Idle(s) && (s.activeRequest.Some? ==> request == s.activeRequest.value)
  {
    hide Sum, Share, Measure, Split, Halves, Extent.Valid;
    if s.activeDeferred.Some? {
      if s.activeCandidate.None? || s.activeDeferred.value != s.activeCandidate.value.extent {
        return s, Some(WrongOutcome);
      }
      next := s.(deferred := s.deferred + [s.activeDeferred.value], activeDeferred := None, activeCandidate := None);
      if |next.queue| == 0 {
        next := next.(done := true);
      }
      MovedToDeferred(s, next);
      return next, None;
    }
    if s.activeRequest.None? || s.activeCandidate.None? {
      return s, Some(NothingActive);
    }
    if request != s.activeRequest.value {
      return s, Some(WrongOutcome);
    }
    next := Requeue(s, success);
    return next, None;
  }

  /** The halves of the active candidate go back, the one read first last when it was read. */
  method Requeue(s: State, success: bool) returns (next: State)
    requires Invariant(s) && s.activeRequest.Some?
    ensures Invariant(next) && next.threshold == s.threshold && next.maxDepth == s.maxDepth
    ensures forall lba: nat :: Share(next, lba) == Share(s, lba)
    ensures Idle(next) && Measure(next) < Measure(s)
    ensures next.head == s.activeRequest.value.start && next.direction != s.activeDirection && next.deferred == s.deferred
    ensures Split(s.activeCandidate.value).Some? && multiset(next.queue) == multiset(s.queue) + Halves(s.activeCandidate.value)
  {
    hide Sum, Share, Measure, Split, Halves, Ordered;
    var candidate := s.activeCandidate.value;
    next := s.(activeRequest := None, activeCandidate := None, head := s.activeRequest.value.start,
               direction := if s.activeDirection == RightFirst then LeftFirst else RightFirst);
    var children := Split(candidate);
    SplitSucceedsIff(candidate);
    var (left, right) := children.value;
    var first, second := Tried(left), Tried(right);
    if success {
      var successful, remaining := Tried(left), Tried(right);
      if s.activeDirection == RightFirst {
        successful, remaining := Tried(right), Tried(left);
      }
      first, second := remaining, successful;
    }
    var grown := (next.queue + [first]) + [second];
    Requeued(s, candidate, first, second, grown);
    var sorted := SortQueue(grown);
    SameMembers(grown, sorted);
    next := next.(queue := sorted);
    if |next.queue| == 0 {
      next := next.(done := true);
    }
    HalvesQueued(s, candidate, grown, next);
  }

  lemma MovedToDeferred(s: State, next: State)
    requires s.activeCandidate.Some? && next.queue == s.queue && next.activeCandidate.None? && next.maxDepth == s.maxDepth
    requires next.deferred == s.deferred + [s.activeCandidate.value.extent]
    ensures forall lba: nat :: Share(next, lba) == Share(s, lba)
    ensures Measure(next) < Measure(s)
  {
    hide Sum;
    var c := s.activeCandidate.value;
    forall lba: nat ensures Share(next, lba) == Share(s, lba) {
      SumConcat(CoveringExtent(lba), s.deferred, [c.extent]);
      SumOne(CoveringExtent(lba), c.extent);
    }
  }

  /** What the two halves add to the sums, in either order. */
  lemma Requeued(s: State, c: Candidate, a: Candidate, b: Candidate, grown: seq<Candidate>)
    requires c.extent.Valid() && Split(c).Some? && c.depth < s.maxDepth
    requires var (left, right) := Split(c).value; (a == Tried(left) && b == Tried(right)) || (a == Tried(right) && b == Tried(left))
    requires grown == (s.queue + [a]) + [b]
    ensures forall lba: nat :: Sum(CoveringCandidate(lba), grown) == Sum(CoveringCandidate(lba), s.queue) + CoveringCandidate(lba)(c)
    ensures Sum(WeightOf(s.maxDepth), grown) + 1 == Sum(WeightOf(s.maxDepth), s.queue) + WeightOf(s.maxDepth)(c)
    ensures forall k :: 0 <= k < |grown| ==> grown[k] in s.queue || (grown[k].extent.Valid() && grown[k].depth <= s.maxDepth)
    ensures multiset(grown) == multiset(s.queue) + Halves(c)
  {
    hide Sum;
    forall lba: nat ensures Sum(CoveringCandidate(lba), grown) == Sum(CoveringCandidate(lba), s.queue) + CoveringCandidate(lba)(c) {
      SumTwo(CoveringCandidate(lba), s.queue, a, b);
      SplitCovers(c, lba);
    }
    SumTwo(WeightOf(s.maxDepth), s.queue, a, b);
    WeightOfHalves(c, s.maxDepth);
    SplitCovers(c, 0);
  }

  lemma SumTwo(f: Candidate -> nat, q: seq<Candidate>, a: Candidate, b: Candidate)
    ensures Sum(f, (q + [a]) + [b]) == Sum(f, q) + f(a) + f(b)
  {
    SumConcat(f, q + [a], [b]);
    SumConcat(f, q, [a]);
    SumOne(f, a);
    SumOne(f, b);
  }

  lemma HalvesQueued(s: State, c: Candidate, grown: seq<Candidate>, next: State)
    requires s.activeCandidate == Some(c) && next.activeCandidate.None? && next.deferred == s.deferred && next.maxDepth == s.maxDepth
    requires multiset(next.queue) == multiset(grown)
    requires forall lba: nat :: Sum(CoveringCandidate(lba), grown) == Sum(CoveringCandidate(lba), s.queue) + CoveringCandidate(lba)(c)
    requires Sum(WeightOf(s.maxDepth), grown) + 1 == Sum(WeightOf(s.maxDepth), s.queue) + WeightOf(s.maxDepth)(c)
    ensures forall lba: nat :: Share(next, lba) == Share(s, lba)
    ensures Measure(next) < Measure(s)
  {
    hide Sum;
    forall lba: nat ensures Share(next, lba) == Share(s, lba) {
      SumPermutes(CoveringCandidate(lba), grown, next.queue);
      assert Sum(CoveringCandidate(lba), grown) == Sum(CoveringCandidate(lba), s.queue) + CoveringCandidate(lba)(c);
    }
    SumPermutes(WeightOf(s.maxDepth), grown, next.queue);
  }

  // ----- the invariant, the conserved sectors and the measure

  predicate Idle(s: State) {
    s.activeRequest.None? && s.activeDeferred.None? && s.activeCandidate.None?
  }

  ghost predicate Invariant(s: State) {
    && s.maxDepth > 0 && s.threshold > 0
    && (forall k :: 0 <= k < |s.queue| ==> s.queue[k].extent.Valid() && s.queue[k].depth <= s.maxDepth)
    && (s.activeCandidate.Some? ==> s.activeCandidate.value.extent.Valid() && s.activeCandidate.value.depth <= s.maxDepth)
    && (s.activeDeferred.Some? ==> s.activeRequest.None? && s.activeCandidate.Some? && s.activeCandidate.value.extent == s.activeDeferred.value)
    && (s.activeRequest.Some? ==>
          s.activeCandidate.Some? && s.activeCandidate.value.extent.sectors >= 2 && s.activeCandidate.value.depth < s.maxDepth)
    && (s.activeCandidate.Some? ==> s.activeRequest.Some? || s.activeDeferred.Some?)
    && (s.done ==> s.queue == [] && Idle(s))
  }

  function CoveringCandidate(lba: nat): Candidate -> nat {
    (c: Candidate) => if c.extent.Covers(lba) then 1 else 0
  }

  function CoveringExtent(lba: nat): Extent -> nat {
    (e: Extent) => if e.Covers(lba) then 1 else 0
  }

  /** How many of the queue, the active candidate and the deferred extents cover a sector. */
  function Share(s: State, lba: nat): nat {
    Sum(CoveringCandidate(lba), s.queue)
    + (if s.activeCandidate.Some? then CoveringCandidate(lba)(s.activeCandidate.value) else 0)
    + Sum(CoveringExtent(lba), s.deferred)
  }

  /** 2^(k+1) - 1. */
  function Weight(k: nat): (w: nat)
    ensures 0 < w
  {
    if k == 0 then 1 else 2 * Weight(k - 1) + 1
  }

  function WeightOf(maxDepth: nat): Candidate -> nat {
    (c: Candidate) => if c.depth <= maxDepth then Weight(maxDepth - c.depth) else 1
  }

  function Measure(s: State): nat {
    Sum(WeightOf(s.maxDepth), s.queue)
    + if s.activeCandidate.Some? then WeightOf(s.maxDepth)(s.activeCandidate.value) else 0
  }

  lemma WeightOfHalves(c: Candidate, maxDepth: uint16)
    requires c.extent.Valid() && Split(c).Some? && c.depth < maxDepth
    ensures var (left, right) := Split(c).value;
            && left.depth == c.depth + 1 && right.depth == c.depth + 1
            && WeightOf(maxDepth)(Tried(left)) + WeightOf(maxDepth)(Tried(right)) + 1 == WeightOf(maxDepth)(c)
  {
  }

  // ----- a whole pass

  /** Any client of the scheduler: requests are answered at will until the pass is done or a dispatch fails. It ends
      after at most as many steps as the measure allows. It fails, whatever the answers, exactly when the threshold lets
      single sectors through and some range is too short to be halved all the way down; otherwise the deferred extents are
      an exact partition of the sectors wanted. */
  method DriveAdaptivePass(extents: seq<Extent>, threshold: uint32, maxDepth: uint16, head: uint64)
    returns (r: Result<State, AdaptiveError>, steps: nat)
    ensures r.Ok? <==> ValidSet(extents) && threshold > 0 && maxDepth > 0 && (threshold == 1 ==> LongEnough(extents, maxDepth))
    ensures r.Ok? ==> r.value.done
    ensures ValidSet(extents) ==> steps <= |extents| * Weight(maxDepth)
    ensures r.Ok? ==> forall lba: nat :: Sum(CoveringExtent(lba), r.value.deferred) == if Wanted(extents, lba) then 1 else 0
  {
    hide Sum, Share, Measure, Invariant, Wanted, Weight, AllLong, LongEnough;
    steps := 0;
    r := StartAdaptivePass(extents, threshold, maxDepth, head);
    if r.Err? {
      return;
    }
    var s := r.value;
    while !s.done
      invariant Invariant(s) && Idle(s) && s.threshold == threshold && s.maxDepth == maxDepth
      invariant forall lba: nat :: Share(s, lba) == if Wanted(extents, lba) then 1 else 0
      invariant steps + Measure(s) <= |extents| * Weight(maxDepth)
      invariant threshold == 1 ==> (AllLong(s.queue, maxDepth) <==> LongEnough(extents, maxDepth))
      decreases Measure(s), !s.done
    {
      var middle, decision := DispatchAdaptivePass(s, true);
      if decision.Err? {
        StuckIsShort(s);
        return Err(decision.error), steps;
      }
      if decision.value == Finished {
        s := middle;
        continue;
      }
      var success: bool := *;
      var request := if middle.activeRequest.Some? then middle.activeRequest.value else Request(0, 0);
      var next, e := ResolveAdaptivePass(middle, request, success);
      if threshold == 1 {
        LongKept(s, middle, next);
      }
      steps := steps + 1;
      s := next;
    }
    DoneShares(s);
    return Ok(s), steps;
  }

  lemma DoneShares(s: State)
    requires Invariant(s) && s.done
    ensures forall lba: nat :: Share(s, lba) == Sum(CoveringExtent(lba), s.deferred)
    ensures AllLong(s.queue, s.maxDepth)
  {
  }

  // ----- how far a range can be halved

  function Power(k: nat): (p: nat)
    ensures 0 < p && (0 < k ==> p == 2 * Power(k - 1))
  {
    if k == 0 then 1 else 2 * Power(k - 1)
  }

  /** Long enough to reach the depth limit before single sectors: halving loses at most the odd sector. */
  predicate Long(c: Candidate, maxDepth: nat) {
    c.depth < maxDepth ==> Power(maxDepth - c.depth) <= c.extent.sectors
  }

  predicate AllLong(q: seq<Candidate>, maxDepth: nat) {
    forall c :: c in q ==> Long(c, maxDepth)
  }

  predicate LongEnough(extents: seq<Extent>, maxDepth: nat) {
    forall e :: e in extents && Schedulable(e.mark.state) ==> Power(maxDepth) <= e.sectors
  }

  lemma LongNext(extents: seq<Extent>, i: nat, q: seq<Candidate>, c: Candidate, maxDepth: nat)
    requires i < |extents| && c.extent == extents[i] && c.depth == 0 && 0 < maxDepth
    ensures AllLong(q + [c], maxDepth) <==> AllLong(q, maxDepth) && Long(c, maxDepth)
    ensures LongEnough(extents[..i+1], maxDepth) <==>
              LongEnough(extents[..i], maxDepth) && (Schedulable(c.extent.mark.state) ==> Long(c, maxDepth))
  {
    hide Power;
    assert extents[..i+1] == extents[..i] + [extents[i]];
    assert c in q + [c];
    assert forall d :: d in q ==> d in q + [c];
    assert extents[i] in extents[..i+1];
    assert forall e :: e in extents[..i] ==> e in extents[..i+1];
  }

  lemma Halving(n: nat, p: nat)
    ensures 2 * p <= n <==> p <= n / 2 && p <= n - n / 2
  {
  }

  /** Halving keeps a long candidate long, and one half of a short one is short. */
  lemma HalvesLong(c: Candidate, maxDepth: uint16)
    requires c.extent.Valid() && Split(c).Some? && c.depth < maxDepth
    ensures var (left, right) := Split(c).value;
            Long(c, maxDepth) <==> Long(Tried(left), maxDepth) && Long(Tried(right), maxDepth)
  {
    hide Power;
    var (left, right) := Split(c).value;
    var n, k := c.extent.sectors, maxDepth - c.depth - 1;
    assert Tried(left).extent.sectors == n / 2 && Tried(right).extent.sectors == n - n / 2;
    assert Tried(left).depth == c.depth + 1 && Tried(right).depth == c.depth + 1;
    assert Power(k + 1) == 2 * Power(k);
    Halving(n, Power(k));
    if k == 0 {
      assert Power(0) == 1 by {
        PowerZero();
      }
    }
  }

  lemma PowerZero()
    ensures Power(0) == 1
  {
  }

  lemma StuckIsShort(s: State)
    requires Invariant(s) && Idle(s) && Refused(s, true)
    ensures s.threshold == 1 && !AllLong(s.queue, s.maxDepth)
  {
    var c :| Foremost(s, c) && Stuck(s, c);
    assert Power(s.maxDepth - c.depth) == 2 * Power(s.maxDepth - c.depth - 1);
    assert !Long(c, s.maxDepth);
  }

  lemma SeenLong(q: seq<Candidate>, head: uint64, maxDepth: nat)
    ensures AllLong(Refreshed(q, head), maxDepth) <==> AllLong(q, maxDepth)
  {
    hide Power;
    var r := Refreshed(q, head);
    assert forall k :: 0 <= k < |q| ==> r[k] in r && q[k] in q && (Long(r[k], maxDepth) <==> Long(q[k], maxDepth));
  }

  lemma PermutedLong(a: seq<Candidate>, b: seq<Candidate>, maxDepth: nat)
    requires multiset(a) == multiset(b)
    ensures AllLong(a, maxDepth) <==> AllLong(b, maxDepth)
  {
    hide Long;
    SameMembers(a, b);
    SameMembers(b, a);
    assert forall c :: c in a <==> c in b;
  }

  lemma LongConcat(a: seq<Candidate>, b: seq<Candidate>, maxDepth: nat)
    ensures AllLong(a + b, maxDepth) <==> AllLong(a, maxDepth) && AllLong(b, maxDepth)
  {
    hide Long;
    assert forall c :: c in a + b <==> c in a || c in b;
  }

  lemma LongKept(s: State, middle: State, next: State)
    requires Invariant(middle) && middle.threshold == 1 && !Idle(middle) && middle.maxDepth == s.maxDepth
    requires multiset([middle.activeCandidate.value] + middle.queue) == multiset(Refreshed(s.queue, s.head))
    requires middle.activeDeferred.Some? ==> next.queue == middle.queue
    requires middle.activeDeferred.Some? ==>
               middle.activeCandidate.value.extent.sectors < 1 || middle.activeCandidate.value.depth >= middle.maxDepth
    requires middle.activeRequest.Some? ==>
               && Split(middle.activeCandidate.value).Some?
               && multiset(next.queue) == multiset(middle.queue) + Halves(middle.activeCandidate.value)
    ensures AllLong(next.queue, s.maxDepth) <==> AllLong(s.queue, s.maxDepth)
  {
    hide Power, AllLong, Refreshed;
    var c, m := middle.activeCandidate.value, s.maxDepth;
    SeenLong(s.queue, s.head, m);
    PermutedLong([c] + middle.queue, Refreshed(s.queue, s.head), m);
    LongConcat([c], middle.queue, m);
    OneLong(c, m);
    if middle.activeRequest.Some? {
      var (left, right) := Split(c).value;
      HalvesLong(c, m);
      OneLong(Tried(left), m);
      OneLong(Tried(right), m);
      LongConcat([Tried(left)], [Tried(right)], m);
      LongConcat(middle.queue, [Tried(left)] + [Tried(right)], m);
      PermutedLong(middle.queue + ([Tried(left)] + [Tried(right)]), next.queue, m);
    }
  }

  lemma OneLong(c: Candidate, maxDepth: nat)
    ensures AllLong([c], maxDepth) <==> Long(c, maxDepth)
  {
    assert c in [c];
  }

  /** The smallest input a pass with a threshold of one fails on. */
  lemma ThresholdOneFails(e: Extent, maxDepth: uint16)
    requires e.Valid() && e.sectors == 1 && Schedulable(e.mark.state) && maxDepth > 0
    ensures ValidSet([e]) && !LongEnough([e], maxDepth)
  {
    assert e in [e];
    assert Power(maxDepth) == 2 * Power(maxDepth - 1);
  }
}
