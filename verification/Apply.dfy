/** Replacing a range of an extent list (internal/mapfile/extent_apply.go): the list operation refines
    the point-wise override of a function from sectors to marks. */
module Applying {
  import opened Prelude
  import opened Transitions
  import opened Extents
  import opened Coalescing

  datatype ApplyError = BadCandidate | BadSet | StaleAttempts | BadTransition

  /** What is kept of an extent next to the candidate. */
  function Pieces(e: Extent, c: Extent): seq<Extent> {
    if !Overlaps(e, c) then [e]
    else
      (if e.start < c.start then [e.(sectors := c.start - e.start)] else []) +
      (if e.End() > c.End() then [Extent(Wrap64(c.End()), Wrap32(e.End() - c.End()), e.mark)] else [])
  }

  /** The list with the candidate's range cut out. */
  function Splice(s: seq<Extent>, c: Extent): seq<Extent> {
    if s == [] then [] else Splice(s[..|s|-1], c) + Pieces(s[|s|-1], c)
  }

  /** The first objection ApplyExtent raises against an overlapped extent. */
  function Objection(e: Extent, c: Extent): Option<ApplyError> {
    if !Overlaps(e, c) then None
    else if c.mark.attempts < e.mark.attempts then Some(StaleAttempts)
    else if !MayReplace(e.mark, c.mark) then Some(BadTransition)
    else None
  }

  function FirstObjection(s: seq<Extent>, c: Extent): Option<ApplyError> {
    if s == [] then None
    else if FirstObjection(s[..|s|-1], c).Some? then FirstObjection(s[..|s|-1], c)
    else Objection(s[|s|-1], c)
  }

  /** The place of the candidate in a list sorted by start. */
  function Insert(s: seq<Extent>, c: Extent): (r: seq<Extent>)
    ensures multiset(r) == multiset(s) + multiset{c}
  {
    if s == [] then [c]
    else if s[0].start < c.start then
      assert s == [s[0]] + s[1..];
      [s[0]] + Insert(s[1..], c)
    else [c] + s
  }

  /** The list ApplyExtent computes, or the reason it refuses. */
  function Apply(s: seq<Extent>, c: Extent): Result<seq<Extent>, ApplyError> {
    if !c.Valid() then Err(BadCandidate)
    else if !ValidSet(s) then Err(BadSet)
    else
      match FirstObjection(s, c)
      case Some(e) => Err(e)
      case None => Ok(Coalesce(Insert(Splice(s, c), c)))
  }

  // ----- the source's loop, sort and final coalescing

  predicate SortedByStart(s: seq<Extent>) {
    forall i, j :: 0 <= i < j < |s| ==> s[i].start <= s[j].start
  }

  lemma {:induction false} InsertedBehind(s: seq<Extent>, c: Extent, start: nat)
    requires start <= c.start && forall j :: 0 <= j < |s| ==> start <= s[j].start
    ensures forall j :: 0 <= j < |Insert(s, c)| ==> start <= Insert(s, c)[j].start
  {
    if s != [] {
      InsertedBehind(s[1..], c, start);
    }
  }

  lemma {:induction false} InsertKeepsSorted(s: seq<Extent>, c: Extent)
    requires SortedByStart(s)
    ensures SortedByStart(Insert(s, c))
  {
    if s != [] && s[0].start < c.start {
      InsertKeepsSorted(s[1..], c);
      InsertedBehind(s[1..], c, s[0].start);
    }
  }

  /** Stands for the library's sort.Slice: an ordered permutation, of which only that much is used. */
  method SortByStart(s: seq<Extent>) returns (r: seq<Extent>)
    ensures SortedByStart(r) && multiset(r) == multiset(s)
  {
    r := [];
    for i := 0 to |s|
      invariant SortedByStart(r) && multiset(r) == multiset(s[..i])
    {
      assert s[..i+1] == s[..i] + [s[i]];
      InsertKeepsSorted(r, s[i]);
      r := Insert(r, s[i]);
    }
    assert s[..|s|] == s;
  }

  lemma FirstOut(s: seq<Extent>)
    requires s != []
    ensures multiset(s[1..]) == multiset(s) - multiset{s[0]}
  {
    assert s == [s[0]] + s[1..];
  }

  ghost predicate Increasing(s: seq<Extent>) {
    forall i, j :: 0 <= i < j < |s| ==> s[i].start < s[j].start
  }

  lemma {:induction false} SortedPermutationUnique(a: seq<Extent>, b: seq<Extent>)
    requires SortedByStart(a) && multiset(a) == multiset(b) && Increasing(b)
    ensures a == b
  {
    hide SortedByStart, Increasing;
    assert |multiset(a)| == |a| && |multiset(b)| == |b|;
    if a != [] {
      SameFirstOfPermutation(a, b);
      FirstOut(a);
      FirstOut(b);
      SortedTails(a, b);
      SortedPermutationUnique(a[1..], b[1..]);
      assert a == [a[0]] + a[1..] && b == [b[0]] + b[1..];
    }
  }

  lemma SortedTails(a: seq<Extent>, b: seq<Extent>)
    requires a != [] && b != [] && SortedByStart(a) && Increasing(b)
    ensures SortedByStart(a[1..]) && Increasing(b[1..])
  {
  }

  lemma SameFirstOfPermutation(a: seq<Extent>, b: seq<Extent>)
    requires a != [] && b != [] && SortedByStart(a) && multiset(a) == multiset(b) && Increasing(b)
    ensures a[0] == b[0]
  {
    assert a[0] in multiset(b) && b[0] in multiset(a);
    var i: nat :| i < |b| && b[i] == a[0];
    var k: nat :| k < |a| && a[k] == b[0];
    assert a[0].start <= a[k].start;
  }

  method ApplyExtent(extents: seq<Extent>, candidate: Extent) returns (r: Result<seq<Extent>, ApplyError>)
    ensures r == Apply(extents, candidate)
  {
    hide Splice, FirstObjection, Coalesce, Insert, ValidSet, SortedByStart, ValidTransition;
    NothingSpliced(candidate);
    assert extents[..0] == [];
    if !candidate.Valid() {
      return Err(BadCandidate);
    }
    if !ValidSet(extents) {
      return Err(BadSet);
    }
    var result: seq<Extent> := [];
    for i := 0 to |extents|
      invariant result == Splice(extents[..i], candidate)
      invariant FirstObjection(extents[..i], candidate).None?
    {
      var current := extents[i];
      SpliceStep(extents, candidate, i);
      if !Overlaps(current, candidate) {
        result := result + [current];
        continue;
      }
      ghost var before := result;
      if candidate.mark.attempts < current.mark.attempts {
        ObjectionStays(extents, candidate, i);
        return Err(StaleAttempts);
      }
      if !ValidTransition(current.mark.state, current.mark.confidence, candidate.mark.state, candidate.mark.confidence) {
        ObjectionStays(extents, candidate, i);
        return Err(BadTransition);
      }
      if current.start < candidate.start {
        result := result + [current.(sectors := candidate.start - current.start)];
      }
      if current.End() > candidate.End() {
        result := result + [Extent(candidate.End(), current.End() - candidate.End(), current.mark)];
      }
      assert result == before + Pieces(current, candidate);
    }
    assert extents[..|extents|] == extents;
    var sorted := SortByStart(result + [candidate]);
    SortedIsSpliced(extents, candidate, sorted);
    var coalesced := CoalesceExtents(sorted);
    return Ok(coalesced.value);
  }

  lemma NothingSpliced(c: Extent)
    ensures Splice([], c) == [] && FirstObjection([], c) == None
  {
  }

  lemma SpliceStep(s: seq<Extent>, c: Extent, i: nat)
    requires i < |s|
    ensures Splice(s[..i+1], c) == Splice(s[..i], c) + Pieces(s[i], c)
    ensures FirstObjection(s[..i], c).None? ==> FirstObjection(s[..i+1], c) == Objection(s[i], c)
  {
    assert s[..i+1][..i] == s[..i];
  }

  lemma SortedIsSpliced(s: seq<Extent>, c: Extent, sorted: seq<Extent>)
    requires ValidSet(s) && c.Valid()
    requires SortedByStart(sorted) && multiset(sorted) == multiset(Splice(s, c) + [c])
    ensures sorted == Insert(Splice(s, c), c) && ValidSet(sorted)
  {
    SpliceValid(s, c);
    InsertValid(Splice(s, c), c);
    ValidSetIsSeparated(Insert(Splice(s, c), c));
    SortedPermutationUnique(sorted, Insert(Splice(s, c), c));
  }

  lemma {:induction false} ObjectionStays(s: seq<Extent>, c: Extent, i: nat)
    requires i < |s| && FirstObjection(s[..i], c).None? && Objection(s[i], c).Some?
    ensures FirstObjection(s, c) == Objection(s[i], c)
    decreases |s|
  {
    if i == |s| - 1 {
    } else {
      assert s[..|s|-1][..i] == s[..i];
      ObjectionStays(s[..|s|-1], c, i);
    }
  }

  // ----- the pieces

  lemma PiecesView(e: Extent, c: Extent, lba: nat)
    requires e.Valid() && c.Valid()
    ensures At(Pieces(e, c), lba) == if e.Covers(lba) && !c.Covers(lba) then Some(e.mark) else None
    ensures forall i :: 0 <= i < |Pieces(e, c)| ==>
              && Pieces(e, c)[i].Valid() && !Overlaps(Pieces(e, c)[i], c)
              && e.start <= Pieces(e, c)[i].start && Pieces(e, c)[i].End() <= e.End()
    ensures Separated(Pieces(e, c))
  {
    if !Overlaps(e, c) {
      AtOne(e, lba);
    } else {
      var left := if e.start < c.start then [e.(sectors := c.start - e.start)] else [];
      var right := if e.End() > c.End() then [Extent(c.End(), e.End() - c.End(), e.mark)] else [];
      assert Pieces(e, c) == left + right;
      AtConcat(left, right, lba);
      if left != [] { AtOne(left[0], lba); }
      if right != [] { AtOne(right[0], lba); }
    }
  }

  lemma PrefixValid(s: seq<Extent>, n: nat)
    requires ValidSet(s) && n <= |s|
    ensures ValidSet(s[..n])
  {
  }

  lemma {:induction false} SpliceView(s: seq<Extent>, c: Extent, lba: nat)
    requires ValidSet(s) && c.Valid()
    ensures At(Splice(s, c), lba) == if c.Covers(lba) then None else At(s, lba)
  {
    if s != [] {
      var p, e := s[..|s|-1], s[|s|-1];
      assert s == p + [e];
      PrefixValid(s, |s|-1);
      SpliceView(p, c, lba);
      PiecesView(e, c, lba);
      AtConcat(Splice(p, c), Pieces(e, c), lba);
      AtConcat(p, [e], lba);
      AtOne(e, lba);
    }
  }

  /** What is left after cutting is still a valid set, clear of the candidate, and ends where the list ended. */
  lemma {:induction false} SpliceValid(s: seq<Extent>, c: Extent)
    requires ValidSet(s) && c.Valid()
    ensures ValidSet(Splice(s, c))
    ensures forall i :: 0 <= i < |Splice(s, c)| ==> !Overlaps(Splice(s, c)[i], c)
    ensures forall i :: 0 <= i < |Splice(s, c)| ==> Splice(s, c)[i].End() <= s[|s|-1].End()
  {
    hide At;
    if s != [] {
      var p, e := s[..|s|-1], s[|s|-1];
      PrefixValid(s, |s|-1);
      SpliceValid(p, c);
      PiecesView(e, c, 0);
      var a, b := Splice(p, c), Pieces(e, c);
      assert a != [] ==> p != [];
      assert p != [] ==> p[|p|-1].End() <= e.start;
      ValidSetIsSeparated(a);
      ConcatValid(a, b, e.start);
    }
  }

  lemma ConcatValid(a: seq<Extent>, b: seq<Extent>, at: nat)
    requires forall i :: 0 <= i < |a| ==> a[i].Valid() && a[i].End() <= at
    requires forall i :: 0 <= i < |b| ==> b[i].Valid() && at <= b[i].start
    requires Separated(a) && Separated(b)
    ensures ValidSet(a + b)
  {
    SeparatedIsValidSet(a + b);
  }

  lemma {:induction false} InsertView(s: seq<Extent>, c: Extent, lba: nat)
    requires c.Covers(lba) ==> At(s, lba).None?
    ensures At(Insert(s, c), lba) == if c.Covers(lba) then Some(c.mark) else At(s, lba)
  {
    if s == [] {
      AtOne(c, lba);
    } else if s[0].start < c.start {
      InsertView(s[1..], c, lba);
      AtPair(s[0], s[0], Insert(s[1..], c), lba);
    } else {
      AtPair(c, c, s, lba);
    }
  }

  lemma InsertMembers(s: seq<Extent>, c: Extent)
    ensures forall e :: e in Insert(s, c) ==> e == c || e in s
  {
    forall e | e in Insert(s, c) ensures e == c || e in s {
      assert e in multiset(Insert(s, c));
      assert e in multiset(s) + multiset{c};
    }
  }

  lemma ValidCons(e: Extent, s: seq<Extent>)
    requires e.Valid() && ValidSet(s) && (s != [] ==> e.End() <= s[0].start)
    ensures ValidSet([e] + s)
  {
    var r := [e] + s;
    forall i | 0 < i < |r| ensures r[i-1].start <= r[i].start && !Overlaps(r[i-1], r[i]) {
      assert r[i] == s[i-1];
      assert i > 1 ==> r[i-1] == s[i-2];
    }
  }

  lemma {:induction false} InsertValid(s: seq<Extent>, c: Extent)
    requires ValidSet(s) && c.Valid() && forall e :: e in s ==> !Overlaps(e, c)
    ensures ValidSet(Insert(s, c))
  {
    if s != [] && s[0].start < c.start {
      TailFits(s);
      InsertValid(s[1..], c);
      var t := Insert(s[1..], c);
      ValidSetIsSeparated(s);
      InsertMembers(s[1..], c);
      assert s[0] in s && t[0] in t;
      assert s[0].End() <= t[0].start;
      ValidCons(s[0], t);
    } else {
      assert s != [] ==> s[0] in s;
      ValidCons(c, s);
    }
  }

  // ----- refinement

  /** The list handed to the final coalescing. */
  function Spliced(s: seq<Extent>, c: Extent): seq<Extent> {
    Insert(Splice(s, c), c)
  }

  lemma SplicedView(s: seq<Extent>, c: Extent, lba: nat)
    requires ValidSet(s) && c.Valid()
    ensures ValidSet(Spliced(s, c))
    ensures At(Spliced(s, c), lba) == if c.Covers(lba) then Some(c.mark) else At(s, lba)
  {
    SpliceValid(s, c);
    InsertValid(Splice(s, c), c);
    SpliceView(s, c, lba);
    InsertView(Splice(s, c), c, lba);
  }

  ghost predicate Overridden(before: seq<Extent>, c: Extent, after: seq<Extent>) {
    forall lba: nat :: At(after, lba) == if c.Covers(lba) then Some(c.mark) else At(before, lba)
  }

  /** The result's view is the point-wise override exactly when no run of equal marks spans 2^32 sectors. */
  lemma ApplyOverridesIff(s: seq<Extent>, c: Extent)
    requires Apply(s, c).Ok?
    ensures Overridden(s, c, Apply(s, c).value) <==> RunsFit(Spliced(s, c))
  {
    var p, r := Spliced(s, c), Apply(s, c).value;
    SplicedView(s, c, 0);
    CoalesceKeepsViewIff(p);
    forall lba: nat ensures At(p, lba) == if c.Covers(lba) then Some(c.mark) else At(s, lba) {
      SplicedView(s, c, lba);
    }
    if Overridden(s, c, r) {
      forall lba: nat ensures At(r, lba) == At(p, lba) {
      }
      assert SameView(r, p);
    }
    if SameView(r, p) {
      forall lba: nat ensures At(r, lba) == if c.Covers(lba) then Some(c.mark) else At(s, lba) {
        assert At(r, lba) == At(p, lba);
      }
    }
  }

  lemma {:induction false} FirstObjectionNone(s: seq<Extent>, c: Extent)
    ensures FirstObjection(s, c).None? <==> forall i :: 0 <= i < |s| ==> Objection(s[i], c).None?
  {
    if s != [] {
      FirstObjectionNone(s[..|s|-1], c);
    }
  }

  ghost predicate Permits(s: seq<Extent>, c: Extent) {
    forall lba: nat :: c.Covers(lba) && At(s, lba).Some? ==> MayReplace(At(s, lba).value, c.mark)
  }

  /** ApplyExtent succeeds exactly when every sector under the candidate permits it. */
  lemma ApplySucceedsIff(s: seq<Extent>, c: Extent)
    ensures Apply(s, c).Ok? <==> c.Valid() && ValidSet(s) && Permits(s, c)
  {
    if c.Valid() && ValidSet(s) {
      FirstObjectionNone(s, c);
      if FirstObjection(s, c).None? {
        forall lba: nat | c.Covers(lba) && At(s, lba).Some? ensures MayReplace(At(s, lba).value, c.mark) {
          var i := AtFound(s, lba);
          assert Objection(s[i], c).None?;
        }
      } else {
        var i :| 0 <= i < |s| && Objection(s[i], c).Some?;
        var lba := Max(s[i].start, c.start);
        AtIndex(s, i, lba);
        assert c.Covers(lba);
      }
    }
  }

  // ----- within a capacity below 2^32

  lemma ApplyWithin(s: seq<Extent>, c: Extent, capacity: nat)
    requires ValidSet(s) && Within(s, capacity) && c.Valid() && c.End() <= capacity
    ensures Within(Spliced(s, c), capacity)
  {
    SpliceValid(s, c);
    ValidSetIsSeparated(s);
    if s != [] {
      assert s[|s|-1].End() <= capacity;
    }
    InsertMembers(Splice(s, c), c);
    forall i | 0 <= i < |Spliced(s, c)| ensures Spliced(s, c)[i].End() <= capacity {
      assert Spliced(s, c)[i] in Spliced(s, c);
    }
  }

  lemma WithinView(s: seq<Extent>, capacity: nat, lba: nat)
    requires Within(s, capacity) && At(s, lba).Some?
    ensures lba < capacity
  {
    var i := AtFound(s, lba);
  }

  lemma ViewWithin(s: seq<Extent>, capacity: nat)
    requires ValidSet(s) && forall lba: nat :: At(s, lba).Some? ==> lba < capacity
    ensures Within(s, capacity)
  {
    forall i | 0 <= i < |s| ensures s[i].End() <= capacity {
      AtIndex(s, i, s[i].End() - 1);
    }
  }

  /** Within a capacity below 2^32 a successful application is the override, and leaves a canonical list
      inside the capacity. */
  lemma ApplyRefinesOverride(s: seq<Extent>, c: Extent, capacity: nat)
    requires ValidSet(s) && Within(s, capacity) && c.Valid() && c.End() <= capacity < TWO_32
    requires Permits(s, c)
    ensures Apply(s, c).Ok?
    ensures Canonical(Apply(s, c).value) && Within(Apply(s, c).value, capacity)
    ensures Overridden(s, c, Apply(s, c).value)
  {
    ApplySucceedsIff(s, c);
    ApplyOverridesIff(s, c);
    ApplyWithin(s, c, capacity);
    WithinFits(Spliced(s, c), capacity);
    SplicedView(s, c, 0);
    CoalesceCanonical(Spliced(s, c));
    var p, r := Spliced(s, c), Apply(s, c).value;
    forall lba: nat | At(r, lba).Some? ensures lba < capacity {
      assert At(r, lba) == At(p, lba);
      WithinView(p, capacity, lba);
    }
    ViewWithin(r, capacity);
  }

  lemma ApplyOkPermits(s: seq<Extent>, c: Extent)
    requires Apply(s, c).Ok?
    ensures c.Valid() && ValidSet(s) && Permits(s, c)
  {
    ApplySucceedsIff(s, c);
  }

  // ----- consequences on whole lists

  /** Applying the same extent again changes nothing. */
  lemma ApplyTwice(s: seq<Extent>, c: Extent, capacity: nat)
    requires Apply(s, c).Ok? && Within(s, capacity) && c.End() <= capacity < TWO_32
    ensures Apply(Apply(s, c).value, c) == Apply(s, c)
  {
    ApplyOkPermits(s, c);
    ApplyRefinesOverride(s, c, capacity);
    var once := Apply(s, c).value;
    forall lba: nat | c.Covers(lba) && At(once, lba).Some? ensures MayReplace(At(once, lba).value, c.mark) {
      assert At(once, lba) == Some(c.mark);
    }
    ApplyRefinesOverride(once, c, capacity);
    var twice := Apply(once, c).value;
    forall lba: nat ensures At(once, lba) == At(twice, lba) {
      assert At(once, lba) == if c.Covers(lba) then Some(c.mark) else At(s, lba);
    }
    CanonicalUnique(once, twice);
  }

  ghost predicate Disjoint(a: Extent, b: Extent) {
    forall lba: nat :: !(a.Covers(lba) && b.Covers(lba))
  }

  lemma PermitsElsewhere(s: seq<Extent>, a: Extent, b: Extent, t: seq<Extent>)
    requires Disjoint(a, b) && Overridden(s, a, t)
    ensures Permits(t, b) <==> Permits(s, b)
  {
    forall lba: nat | b.Covers(lba) ensures At(t, lba) == At(s, lba) {
      assert !a.Covers(lba);
    }
  }

  /** Applications to disjoint ranges commute, refusals included. */
  lemma DisjointAppliesCommute(s: seq<Extent>, a: Extent, b: Extent, capacity: nat)
    requires ValidSet(s) && Within(s, capacity) && capacity < TWO_32
    requires a.Valid() && b.Valid() && a.End() <= capacity && b.End() <= capacity && Disjoint(a, b)
    requires Permits(s, a)
    ensures Apply(s, a).Ok? && (Permits(s, b) <==> Apply(Apply(s, a).value, b).Ok?)
    ensures Permits(s, b) ==>
              && Apply(s, b).Ok? && Apply(Apply(s, b).value, a).Ok?
              && Apply(Apply(s, a).value, b) == Apply(Apply(s, b).value, a)
  {
    ApplyRefinesOverride(s, a, capacity);
    var sa := Apply(s, a).value;
    PermitsElsewhere(s, a, b, sa);
    ApplySucceedsIff(sa, b);
    if Permits(s, b) {
      ApplyRefinesOverride(s, b, capacity);
      var sb := Apply(s, b).value;
      PermitsElsewhere(s, b, a, sb);
      ApplyRefinesOverride(sa, b, capacity);
      ApplyRefinesOverride(sb, a, capacity);
      var sab, sba := Apply(sa, b).value, Apply(sb, a).value;
      forall lba: nat ensures At(sab, lba) == At(sba, lba) {
        assert At(sa, lba) == if a.Covers(lba) then Some(a.mark) else At(s, lba);
        assert At(sb, lba) == if b.Covers(lba) then Some(b.mark) else At(s, lba);
        assert !(a.Covers(lba) && b.Covers(lba));
      }
      CanonicalUnique(sab, sba);
    }
  }
}
