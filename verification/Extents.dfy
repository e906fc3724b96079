/** Extent lists and what they mean sector by sector (internal/mapfile/extent.go, geometry.go, extent_ops.go). */
module Extents {
  import opened Prelude
  import opened Transitions

  /** A run of sectors with one mark. `End` is unbounded; Valid rules out the ranges for which
      the 64-bit sum of the program would wrap. */
  datatype Extent = Extent(start: uint64, sectors: uint32, mark: Mark) {
    function End(): nat {
      start + sectors
    }

    predicate Covers(lba: nat) {
      start <= lba < End()
    }

    predicate Valid() {
      0 < sectors && End() < TWO_64 && ValidMark(mark)
    }
  }

  predicate Overlaps(left: Extent, right: Extent) {
    left.start < right.End() && right.start < left.End()
  }

  predicate CanMerge(left: Extent, right: Extent) {
    left.End() == right.start && left.mark == right.mark
  }

  /** The sector count is a uint32 and its sum wraps. */
  function Merge(left: Extent, right: Extent): Extent {
    left.(sectors := (left.sectors + right.sectors) % TWO_32)
  }

  predicate ValidSet(s: seq<Extent>) {
    && (forall i :: 0 <= i < |s| ==> s[i].Valid())
    && (forall i :: 0 < i < |s| ==> s[i-1].start <= s[i].start && !Overlaps(s[i-1], s[i]))
  }

  predicate Within(s: seq<Extent>, capacity: nat) {
    forall i :: 0 <= i < |s| ==> s[i].End() <= capacity
  }

  predicate ValidSetWithin(s: seq<Extent>, capacity: uint64) {
    0 < capacity && ValidSet(s) && Within(s, capacity)
  }

  /** A valid list inside a medium whose sectors a uint32 can count. */
  ghost predicate Sound(s: seq<Extent>, capacity: nat) {
    ValidSet(s) && Within(s, capacity) && capacity < TWO_32
  }

  /** A valid list in which no two neighbours could be merged. */
  predicate Canonical(s: seq<Extent>) {
    ValidSet(s) && forall i :: 0 < i < |s| ==> !CanMerge(s[i-1], s[i])
  }

  // ----- the sector view

  /** The mark a list gives to a sector: the view every operation is judged by. */
  function At(s: seq<Extent>, lba: nat): Option<Mark> {
    if s == [] then None
    else if s[0].Covers(lba) then Some(s[0].mark)
    else At(s[1..], lba)
  }

  ghost predicate SameView(a: seq<Extent>, b: seq<Extent>) {
    forall lba: nat :: At(a, lba) == At(b, lba)
  }

  /** Each extent ends before any later one starts. */
  ghost predicate Separated(s: seq<Extent>) {
    forall i, j :: 0 <= i < j < |s| ==> s[i].End() <= s[j].start
  }

  lemma {:induction false} ValidSetIsSeparated(s: seq<Extent>)
    requires ValidSet(s)
    ensures Separated(s)
  {
    if |s| > 1 {
      var t := s[..|s|-1];
      ValidSetIsSeparated(t);
      var n := |s| - 1;
      assert s[n-1].End() <= s[n].start;
      forall i | 0 <= i < n ensures s[i].End() <= s[n].start {
        if i < n - 1 {
          assert t[i].End() <= t[n-1].start;
        }
      }
      forall i, j | 0 <= i < j < |s| ensures s[i].End() <= s[j].start {
        if j < n {
          assert t[i].End() <= t[j].start;
        }
      }
    }
  }

  lemma SeparatedIsValidSet(s: seq<Extent>)
    requires forall i :: 0 <= i < |s| ==> s[i].Valid()
    requires Separated(s)
    ensures ValidSet(s)
  {
  }

  lemma {:induction false} AtFound(s: seq<Extent>, lba: nat) returns (i: nat)
    requires At(s, lba).Some?
    ensures i < |s| && s[i].Covers(lba) && At(s, lba) == Some(s[i].mark)
    ensures forall k :: 0 <= k < i ==> !s[k].Covers(lba)
  {
    if s[0].Covers(lba) {
      i := 0;
    } else {
      var k := AtFound(s[1..], lba);
      i := k + 1;
    }
  }

  lemma {:induction false} AtNone(s: seq<Extent>, lba: nat)
    ensures At(s, lba).None? <==> forall k :: 0 <= k < |s| ==> !s[k].Covers(lba)
  {
    if s != [] {
      AtNone(s[1..], lba);
      if !s[0].Covers(lba) {
        assert forall k :: 0 < k < |s| ==> s[k] == s[1..][k-1];
        assert forall k :: 0 <= k < |s[1..]| ==> s[1..][k] == s[k+1];
      }
    }
  }

  lemma AtIndex(s: seq<Extent>, i: nat, lba: nat)
    requires ValidSet(s) && i < |s| && s[i].Covers(lba)
    ensures At(s, lba) == Some(s[i].mark)
  {
    ValidSetIsSeparated(s);
    AtNone(s, lba);
    var k := AtFound(s, lba);
  }

  lemma {:induction false} AtConcat(a: seq<Extent>, b: seq<Extent>, lba: nat)
    ensures At(a + b, lba) == if At(a, lba).Some? then At(a, lba) else At(b, lba)
  {
    if a == [] {
      assert a + b == b;
    } else {
      assert (a + b)[1..] == a[1..] + b;
      AtConcat(a[1..], b, lba);
    }
  }

  lemma AtOne(e: Extent, lba: nat)
    ensures At([e], lba) == if e.Covers(lba) then Some(e.mark) else None
  {
    assert At([e][1..], lba) == None;
  }

  /** The first extent that covers a sector. */
  function ExtentAt(s: seq<Extent>, lba: nat): (e: Option<Extent>)
    ensures e.Some? <==> At(s, lba).Some?
    ensures e.Some? ==> e.value.Covers(lba) && At(s, lba) == Some(e.value.mark) && e.value in s
  {
    if s == [] then None
    else if s[0].Covers(lba) then Some(s[0])
    else ExtentAt(s[1..], lba)
  }

  /** LookupExtent (extent_ops.go:51): the covering extent and its position, or none. */
  method LookupExtent(s: seq<Extent>, lba: nat) returns (e: Option<Extent>, index: int)
    ensures e == ExtentAt(s, lba)
    ensures e.Some? <==> At(s, lba).Some?
    ensures e.Some? ==> 0 <= index < |s| && s[index] == e.value && e.value.Covers(lba) && At(s, lba) == Some(e.value.mark)
    ensures e.Some? ==> forall k :: 0 <= k < index ==> !s[k].Covers(lba)
    ensures e.None? ==> index == -1
  {
    for i := 0 to |s|
      invariant At(s, lba) == At(s[i..], lba) && ExtentAt(s, lba) == ExtentAt(s[i..], lba)
      invariant forall k :: 0 <= k < i ==> !s[k].Covers(lba)
    {
      assert s[i..][1..] == s[i+1..];
      if s[i].Covers(lba) {
        return Some(s[i]), i;
      }
    }
    return None, -1;
  }

  // ----- canonical lists

  lemma CanonicalTail(s: seq<Extent>)
    requires Canonical(s) && s != []
    ensures Canonical(s[1..])
  {
    forall i | 0 < i < |s[1..]| ensures !CanMerge(s[1..][i-1], s[1..][i]) && s[1..][i-1].start <= s[1..][i].start && !Overlaps(s[1..][i-1], s[1..][i]) {
      assert s[1..][i-1] == s[i] && s[1..][i] == s[i+1];
      assert 0 < i + 1 < |s|;
    }
  }

  /** In a canonical list a stretch of equally marked sectors never runs past the extent it starts in. */
  lemma RunStaysInExtent(s: seq<Extent>, i: nat, end: nat)
    requires Canonical(s) && i < |s|
    requires s[i].End() <= end
    requires forall lba: nat :: s[i].start <= lba < end ==> At(s, lba) == Some(s[i].mark)
    ensures end == s[i].End()
  {
    var next := s[i].End();
    if next < end {
      assert At(s, next) == Some(s[i].mark);
      var j := AtFound(s, next);
      ValidSetIsSeparated(s);
      assert false;
    }
  }

  /** Two canonical lists that agree on every sector begin with the same extent. */
  lemma SameFirst(a: seq<Extent>, b: seq<Extent>)
    requires Canonical(a) && Canonical(b) && SameView(a, b)
    requires a != [] && b != []
    ensures a[0] == b[0]
  {
    SameFirstStart(a, b);
    SameFirstStart(b, a);
    AtIndex(a, 0, a[0].start);
    AtIndex(b, 0, b[0].start);
    if a[0].End() <= b[0].End() {
      FirstNoLonger(a, b);
    } else {
      FirstNoLonger(b, a);
    }
  }

  lemma SameFirstStart(a: seq<Extent>, b: seq<Extent>)
    requires ValidSet(a) && ValidSet(b) && SameView(a, b) && a != [] && b != []
    ensures a[0].start <= b[0].start
  {
    AtIndex(b, 0, b[0].start);
    assert At(a, b[0].start) == At(b, b[0].start);
    var i := AtFound(a, b[0].start);
    ValidSetIsSeparated(a);
  }

  lemma FirstNoLonger(a: seq<Extent>, b: seq<Extent>)
    requires Canonical(a) && Canonical(b) && SameView(a, b) && a != [] && b != []
    requires a[0].start == b[0].start && a[0].mark == b[0].mark && a[0].End() <= b[0].End()
    ensures a[0] == b[0]
  {
    forall lba: nat | a[0].start <= lba < b[0].End() ensures At(a, lba) == Some(a[0].mark) {
      AtIndex(b, 0, lba);
      assert At(a, lba) == At(b, lba);
    }
    RunStaysInExtent(a, 0, b[0].End());
  }

  lemma TailView(s: seq<Extent>, lba: nat)
    requires ValidSet(s) && s != []
    ensures At(s[1..], lba) == if s[0].Covers(lba) then None else At(s, lba)
  {
    if s[0].Covers(lba) {
      ValidSetIsSeparated(s);
      AtNone(s[1..], lba);
    }
  }

  /** A canonical list is determined by its sector view. */
  lemma {:induction false} CanonicalUnique(a: seq<Extent>, b: seq<Extent>)
    requires Canonical(a) && Canonical(b) && SameView(a, b)
    ensures a == b
  {
    if a == [] && b != [] {
      AtIndex(b, 0, b[0].start);
      assert false;
    } else if b == [] && a != [] {
      AtIndex(a, 0, a[0].start);
      assert false;
    } else if a != [] {
      SameFirst(a, b);
      CanonicalTail(a);
      CanonicalTail(b);
      forall lba: nat ensures At(a[1..], lba) == At(b[1..], lba) {
        TailView(a, lba);
        TailView(b, lba);
        assert At(a, lba) == At(b, lba);
      }
      CanonicalUnique(a[1..], b[1..]);
    }
  }
}
