/** Merging neighbours (internal/mapfile/extent_ops.go:92). The merged sector count is a uint32 sum that wraps,
    so coalescing keeps the sector view exactly when no run of mergeable neighbours reaches 2^32 sectors. */
module Coalescing {
  import opened Prelude
  import opened Transitions
  import opened Extents

  function Coalesce(s: seq<Extent>): seq<Extent> {
    if s == [] then [] else CoalesceFrom(s[0], s[1..])
  }

  function CoalesceFrom(current: Extent, rest: seq<Extent>): seq<Extent>
    decreases |rest|
  {
    if rest == [] then [current]
    else if CanMerge(current, rest[0]) then CoalesceFrom(Merge(current, rest[0]), rest[1..])
    else [current] + CoalesceFrom(rest[0], rest[1..])
  }

  /** CoalesceExtents: an error for an invalid set, otherwise the list with every mergeable pair merged. */
  method CoalesceExtents(s: seq<Extent>) returns (r: Option<seq<Extent>>)
    ensures r == if ValidSet(s) then Some(Coalesce(s)) else None
  {
    if !ValidSet(s) {
      return None;
    }
    if |s| == 0 {
      return Some([]);
    }
    var result: seq<Extent> := [];
    var current := s[0];
    for i := 1 to |s|
      invariant result + CoalesceFrom(current, s[i..]) == Coalesce(s)
    {
      assert s[i..][1..] == s[i+1..];
      if CanMerge(current, s[i]) {
        current := Merge(current, s[i]);
      } else {
        result := result + [current];
        current := s[i];
      }
    }
    assert s[|s|..] == [];
    result := result + [current];
    return Some(result);
  }

  // ----- when the uint32 sum is harmless

  /** Neighbours i, i+1, ..., j can all be merged. */
  predicate Run(s: seq<Extent>, i: nat, j: nat)
    requires j < |s|
  {
    forall k :: i < k <= j ==> CanMerge(s[k-1], s[k])
  }

  /** No run of mergeable neighbours spans 2^32 sectors or more. */
  predicate RunsFit(s: seq<Extent>) {
    forall i, j :: 0 <= i <= j < |s| && Run(s, i, j) ==> s[j].End() - s[i].start < TWO_32
  }

  lemma WithinFits(s: seq<Extent>, capacity: nat)
    requires Within(s, capacity) && capacity < TWO_32
    ensures RunsFit(s)
  {
  }

  lemma MergedValid(a: Extent, b: Extent, rest: seq<Extent>)
    requires ValidSet([a, b] + rest) && CanMerge(a, b) && a.sectors + b.sectors < TWO_32
    ensures ValidSet([Merge(a, b)] + rest)
  {
    var s, t := [a, b] + rest, [Merge(a, b)] + rest;
    assert s[0] == a && s[1] == b;
    forall i | 0 < i < |t| ensures t[i-1].start <= t[i].start && !Overlaps(t[i-1], t[i]) {
      assert t[i] == s[i+1];
      assert s[i].start <= s[i+1].start && !Overlaps(s[i], s[i+1]);
      assert i > 1 ==> t[i-1] == s[i];
    }
    forall i | 0 <= i < |t| ensures t[i].Valid() {
      assert i > 0 ==> t[i] == s[i+1];
    }
  }

  lemma MergedRun(a: Extent, b: Extent, rest: seq<Extent>, i: nat, j: nat)
    requires CanMerge(a, b) && a.sectors + b.sectors < TWO_32 && i <= j <= |rest|
    requires Run([Merge(a, b)] + rest, i, j)
    ensures Run([a, b] + rest, if i == 0 then 0 else i + 1, j + 1)
  {
    var s, t := [a, b] + rest, [Merge(a, b)] + rest;
    assert Merge(a, b).End() == b.End();
    forall k | (if i == 0 then 0 else i + 1) < k <= j + 1 ensures CanMerge(s[k-1], s[k]) {
      if k > 1 {
        assert CanMerge(t[k-2], t[k-1]);
      }
    }
  }

  lemma MergedRunsFit(a: Extent, b: Extent, rest: seq<Extent>)
    requires RunsFit([a, b] + rest) && CanMerge(a, b) && a.sectors + b.sectors < TWO_32
    ensures RunsFit([Merge(a, b)] + rest)
  {
    var s, t := [a, b] + rest, [Merge(a, b)] + rest;
    assert t[0].End() == s[1].End() && t[0].start == s[0].start;
    forall i, j | 0 <= i <= j < |t| && Run(t, i, j) ensures t[j].End() - t[i].start < TWO_32 {
      MergedRun(a, b, rest, i, j);
      assert t[j].End() == s[j+1].End();
      assert t[i].start == s[if i == 0 then 0 else i + 1].start;
    }
  }

  lemma MergeStepFits(a: Extent, b: Extent, rest: seq<Extent>)
    requires ValidSet([a, b] + rest) && RunsFit([a, b] + rest) && CanMerge(a, b)
    ensures Merge(a, b).sectors == a.sectors + b.sectors
    ensures ValidSet([Merge(a, b)] + rest) && RunsFit([Merge(a, b)] + rest)
  {
    var s := [a, b] + rest;
    assert s[0] == a && s[1] == b;
    assert Run(s, 0, 1);
    MergedValid(a, b, rest);
    MergedRunsFit(a, b, rest);
  }

  lemma TailFits(s: seq<Extent>)
    requires ValidSet(s) && s != []
    ensures ValidSet(s[1..])
    ensures RunsFit(s) ==> RunsFit(s[1..])
  {
    var t := s[1..];
    forall i | 0 < i < |t| ensures t[i-1].start <= t[i].start && !Overlaps(t[i-1], t[i]) {
      assert t[i-1] == s[i] && t[i] == s[i+1];
      assert 0 < i + 1 < |s|;
    }
    if RunsFit(s) {
      forall i, j | 0 <= i <= j < |t| && Run(t, i, j) ensures t[j].End() - t[i].start < TWO_32 {
        forall k | i + 1 < k <= j + 1 ensures CanMerge(s[k-1], s[k]) {
          assert CanMerge(t[k-2], t[k-1]);
        }
        assert Run(s, i + 1, j + 1);
      }
    }
  }

  lemma AtPair(a: Extent, b: Extent, rest: seq<Extent>, lba: nat)
    ensures At([a] + rest, lba) == if a.Covers(lba) then Some(a.mark) else At(rest, lba)
    ensures At([a, b] + rest, lba) ==
            if a.Covers(lba) then Some(a.mark) else if b.Covers(lba) then Some(b.mark) else At(rest, lba)
  {
    assert ([a] + rest)[1..] == rest;
    assert ([a, b] + rest)[1..] == [b] + rest;
    assert ([b] + rest)[1..] == rest;
  }

  lemma {:induction false} CoalesceFromKeepsView(current: Extent, rest: seq<Extent>, lba: nat)
    requires ValidSet([current] + rest) && RunsFit([current] + rest)
    ensures At(CoalesceFrom(current, rest), lba) == At([current] + rest, lba)
    decreases |rest|
  {
    hide ValidSet, RunsFit, At, Merge;
    if rest == [] {
      assert [current] + rest == [current];
    } else {
      var next, tail := rest[0], rest[1..];
      assert [current] + rest == [current, next] + tail && rest == [next] + tail;
      AtPair(current, next, tail, lba);
      if CanMerge(current, next) {
        MergeStepFits(current, next, tail);
        CoalesceFromKeepsView(Merge(current, next), tail, lba);
        AtMerged(current, next, tail, lba);
      } else {
        TailFits([current] + rest);
        assert ([current] + rest)[1..] == [next] + tail;
        CoalesceFromKeepsView(next, tail, lba);
        AtPair(current, next, CoalesceFrom(next, tail), lba);
        AtPair(next, next, tail, lba);
      }
    }
  }

  lemma SeparatedTail(a: Extent, b: Extent, rest: seq<Extent>)
    requires Separated([a, b] + rest)
    ensures Separated([b] + rest)
    ensures forall k :: 0 <= k < |rest| ==> a.End() <= rest[k].start && b.End() <= rest[k].start
  {
    var s, t := [a, b] + rest, [b] + rest;
    assert s[0] == a && s[1] == b && forall k :: 0 <= k < |rest| ==> rest[k] == s[k+2];
    forall i, j | 0 <= i < j < |t| ensures t[i].End() <= t[j].start {
      assert t[i] == s[i+1] && t[j] == s[j+1];
    }
  }

  lemma SeparatedFront(a: Extent, rest: seq<Extent>)
    requires Separated(rest) && forall k :: 0 <= k < |rest| ==> a.End() <= rest[k].start
    ensures Separated([a] + rest)
  {
  }

  lemma SeparatedRest(b: Extent, rest: seq<Extent>)
    requires Separated([b] + rest)
    ensures Separated(rest)
  {
    var t := [b] + rest;
    forall i, j | 0 <= i < j < |rest| ensures rest[i].End() <= rest[j].start {
      assert rest[i] == t[i+1] && rest[j] == t[j+1];
    }
  }

  lemma MergeEndsNoLater(a: Extent, b: Extent)
    requires CanMerge(a, b)
    ensures Merge(a, b).End() <= b.End()
  {
  }

  lemma SeparatedCons(a: Extent, b: Extent, rest: seq<Extent>)
    requires Separated([a, b] + rest)
    ensures Separated([b] + rest)
    ensures CanMerge(a, b) ==> Separated([Merge(a, b)] + rest)
    ensures forall k :: 0 <= k < |rest| ==> a.End() <= rest[k].start && b.End() <= rest[k].start
  {
    SeparatedTail(a, b, rest);
    if CanMerge(a, b) {
      hide Separated;
      MergeEndsNoLater(a, b);
      SeparatedRest(b, rest);
      SeparatedFront(Merge(a, b), rest);
    }
  }

  /** Whatever wraps, coalescing never gives a sector another mark: it keeps the mark or loses the sector. */
  lemma {:induction false} CoalesceFromKeepsOrLoses(current: Extent, rest: seq<Extent>, lba: nat)
    requires Separated([current] + rest)
    ensures At(CoalesceFrom(current, rest), lba).Some? ==> At(CoalesceFrom(current, rest), lba) == At([current] + rest, lba)
    decreases |rest|
  {
    hide Separated, At;
    if rest == [] {
      assert [current] + rest == [current];
    } else {
      var next, tail := rest[0], rest[1..];
      assert [current] + rest == [current, next] + tail && rest == [next] + tail;
      AtPair(current, next, tail, lba);
      SeparatedCons(current, next, tail);
      AtNone(tail, lba);
      if CanMerge(current, next) {
        CoalesceFromKeepsOrLoses(Merge(current, next), tail, lba);
        AtPair(Merge(current, next), next, tail, lba);
      } else {
        CoalesceFromKeepsOrLoses(next, tail, lba);
        AtPair(current, next, CoalesceFrom(next, tail), lba);
        AtPair(next, next, tail, lba);
      }
    }
  }

  lemma CoalesceKeepsOrLoses(s: seq<Extent>, lba: nat)
    requires ValidSet(s)
    ensures At(Coalesce(s), lba).Some? ==> At(Coalesce(s), lba) == At(s, lba)
  {
    if s != [] {
      ValidSetIsSeparated(s);
      assert [s[0]] + s[1..] == s;
      CoalesceFromKeepsOrLoses(s[0], s[1..], lba);
    }
  }

  lemma RunInTail(a: Extent, rest: seq<Extent>, i: nat, j: nat)
    requires 0 < i <= j < |rest| + 1 && Run([a] + rest, i, j)
    ensures Run(rest, i - 1, j - 1)
  {
    var s := [a] + rest;
    forall k | i - 1 < k <= j - 1 ensures CanMerge(rest[k-1], rest[k]) {
      assert CanMerge(s[k], s[k+1]);
    }
  }

  lemma FirstAlone(s: seq<Extent>, j: nat)
    requires j < |s| && 1 < |s| && !CanMerge(s[0], s[1]) && Run(s, 0, j)
    ensures j == 0
  {
  }

  lemma RunsFitCons(current: Extent, next: Extent, tail: seq<Extent>)
    requires ValidSet([current, next] + tail) && !CanMerge(current, next)
    requires RunsFit([next] + tail)
    ensures RunsFit([current, next] + tail)
  {
    hide RunsFit, Run, ValidSet;
    var s := [current, next] + tail;
    forall i, j | 0 <= i <= j < |s| && Run(s, i, j) ensures s[j].End() - s[i].start < TWO_32 {
      RunOfCons(current, next, tail, i, j);
    }
    AllRunsFit(s);
  }

  lemma RunOfCons(current: Extent, next: Extent, tail: seq<Extent>, i: nat, j: nat)
    requires !CanMerge(current, next) && RunsFit([next] + tail)
    requires i <= j < |tail| + 2 && Run([current, next] + tail, i, j)
    ensures ([current, next] + tail)[j].End() - ([current, next] + tail)[i].start < TWO_32
  {
    hide Run;
    var s, t := [current, next] + tail, [next] + tail;
    assert s == [current] + t && s[0] == current && s[1] == next;
    if i == 0 {
      FirstAlone(s, j);
    } else {
      RunInTail(current, t, i, j);
      assert t[j-1] == s[j] && t[i-1] == s[i];
    }
  }

  lemma RunsFitMerged(current: Extent, next: Extent, tail: seq<Extent>)
    requires ValidSet([current, next] + tail) && CanMerge(current, next)
    requires current.sectors + next.sectors < TWO_32
    requires RunsFit([Merge(current, next)] + tail)
    ensures RunsFit([current, next] + tail)
  {
    hide RunsFit, Run;
    var s := [current, next] + tail;
    forall i, j | 0 <= i <= j < |s| && Run(s, i, j) ensures s[j].End() - s[i].start < TWO_32 {
      RunBeforeMerge(current, next, tail, i, j);
    }
    AllRunsFit(s);
  }

  lemma AllRunsFit(s: seq<Extent>)
    requires forall i, j :: 0 <= i <= j < |s| && Run(s, i, j) ==> s[j].End() - s[i].start < TWO_32
    ensures RunsFit(s)
  {
  }

  lemma RunBeforeMerge(current: Extent, next: Extent, tail: seq<Extent>, i: nat, j: nat)
    requires ValidSet([current, next] + tail) && CanMerge(current, next)
    requires current.sectors + next.sectors < TWO_32 && RunsFit([Merge(current, next)] + tail)
    requires i <= j < |tail| + 2 && Run([current, next] + tail, i, j)
    ensures ([current, next] + tail)[j].End() - ([current, next] + tail)[i].start < TWO_32
  {
    hide ValidSet;
    var s, t := [current, next] + tail, [Merge(current, next)] + tail;
    assert current.sectors < TWO_32 && next.sectors < TWO_32;
    if j >= 2 {
      var i' := if i == 0 then 0 else i - 1;
      forall k | i' < k <= j - 1 ensures CanMerge(t[k-1], t[k]) {
        assert CanMerge(s[k], s[k+1]);
        SameNeighbours(current, next, tail, k);
      }
      assert Run(t, i', j - 1);
      assert t[j-1] == s[j];
      assert i' > 0 ==> t[i'] == s[i];
    }
  }

  lemma SameNeighbours(current: Extent, next: Extent, tail: seq<Extent>, k: nat)
    requires CanMerge(current, next) && current.sectors + next.sectors < TWO_32 && 0 < k <= |tail|
    ensures CanMerge(([Merge(current, next)] + tail)[k-1], ([Merge(current, next)] + tail)[k])
            <==> CanMerge(([current, next] + tail)[k], ([current, next] + tail)[k+1])
  {
  }

  lemma SingleFits(e: Extent)
    ensures RunsFit([e])
  {
  }

  lemma MergedSeparated(a: Extent, b: Extent, rest: seq<Extent>)
    requires ValidSet([a, b] + rest) && CanMerge(a, b)
    ensures Separated([Merge(a, b)] + rest)
  {
    ValidSetIsSeparated([a, b] + rest);
    SeparatedCons(a, b, rest);
  }

  /** The sector just past a wrapped extent is covered before the merge and by nothing after it. */
  lemma WrapLosesSector(current: Extent, next: Extent, tail: seq<Extent>) returns (lba: nat)
    requires ValidSet([current, next] + tail) && CanMerge(current, next) && TWO_32 <= current.sectors + next.sectors
    ensures At([current, next] + tail, lba).Some? && At(CoalesceFrom(Merge(current, next), tail), lba).None?
  {
    hide ValidSet, CoalesceFrom;
    lba := Merge(current, next).End();
    WrappedEnd(current, next);
    MergedSeparated(current, next, tail);
    AtPair(current, next, tail, lba);
    AtPair(Merge(current, next), next, tail, lba);
    AfterNone(current, next, tail, lba);
    CoalesceFromKeepsOrLoses(Merge(current, next), tail, lba);
  }

  lemma WrappedEnd(a: Extent, b: Extent)
    requires CanMerge(a, b) && TWO_32 <= a.sectors + b.sectors
    ensures a.start <= Merge(a, b).End() < b.End()
  {
  }

  lemma AfterNone(a: Extent, b: Extent, tail: seq<Extent>, lba: nat)
    requires ValidSet([a, b] + tail) && lba < b.End()
    ensures At(tail, lba).None?
  {
    ValidSetIsSeparated([a, b] + tail);
    SeparatedCons(a, b, tail);
    AtNone(tail, lba);
  }

  lemma OverlongTail(current: Extent, next: Extent, tail: seq<Extent>)
    requires ValidSet([current, next] + tail) && !CanMerge(current, next) && !RunsFit([current, next] + tail)
    ensures ValidSet([next] + tail) && !RunsFit([next] + tail)
  {
    if RunsFit([next] + tail) {
      RunsFitCons(current, next, tail);
      assert false;
    }
    TailFits([current, next] + tail);
    assert ([current, next] + tail)[1..] == [next] + tail;
  }

  lemma AtMerged(current: Extent, next: Extent, tail: seq<Extent>, lba: nat)
    requires CanMerge(current, next) && current.sectors + next.sectors < TWO_32
    ensures At([current, next] + tail, lba) == At([Merge(current, next)] + tail, lba)
  {
    AtPair(current, next, tail, lba);
    AtPair(Merge(current, next), next, tail, lba);
  }

  lemma OverlongMerged(current: Extent, next: Extent, tail: seq<Extent>)
    requires ValidSet([current, next] + tail) && CanMerge(current, next) && !RunsFit([current, next] + tail)
    requires current.sectors + next.sectors < TWO_32
    ensures ValidSet([Merge(current, next)] + tail) && !RunsFit([Merge(current, next)] + tail)
  {
    if RunsFit([Merge(current, next)] + tail) {
      RunsFitMerged(current, next, tail);
      assert false;
    }
    MergedValid(current, next, tail);
  }

  /** A run that is too long loses a sector. */
  lemma {:induction false} OverlongRunLosesSector(current: Extent, rest: seq<Extent>) returns (lba: nat)
    requires ValidSet([current] + rest) && !RunsFit([current] + rest)
    ensures At([current] + rest, lba).Some? && At(CoalesceFrom(current, rest), lba).None?
    decreases |rest|
  {
    assert rest == [] ==> [current] + rest == [current];
    SingleFits(current);
    var next, tail := rest[0], rest[1..];
    assert [current] + rest == [current, next] + tail && rest == [next] + tail;
    if !CanMerge(current, next) {
      OverlongTail(current, next, tail);
      lba := OverlongRunLosesSector(next, tail);
      LaterNotCovered([current] + rest, lba);
      assert ([current] + rest)[1..] == [next] + tail;
      AtPair(current, next, CoalesceFrom(next, tail), lba);
    } else if current.sectors + next.sectors < TWO_32 {
      OverlongMerged(current, next, tail);
      lba := OverlongRunLosesSector(Merge(current, next), tail);
      assert CoalesceFrom(current, rest) == CoalesceFrom(Merge(current, next), tail);
      AtMerged(current, next, tail, lba);
    } else {
      lba := WrapLosesSector(current, next, tail);
    }
  }

  lemma LaterNotCovered(s: seq<Extent>, lba: nat)
    requires ValidSet(s) && s != []
    ensures s[0].Covers(lba) ==> At(s[1..], lba).None?
    ensures At(s[1..], lba).Some? ==> !s[0].Covers(lba)
  {
    TailView(s, lba);
  }

  /** Coalescing keeps every sector's mark exactly when no run spans 2^32 sectors. */
  lemma CoalesceKeepsViewIff(s: seq<Extent>)
    requires ValidSet(s)
    ensures SameView(Coalesce(s), s) <==> RunsFit(s)
  {
    if s == [] {
    } else {
      assert [s[0]] + s[1..] == s;
      if RunsFit(s) {
        forall lba: nat ensures At(Coalesce(s), lba) == At(s, lba) {
          CoalesceFromKeepsView(s[0], s[1..], lba);
        }
      } else {
        var lba := OverlongRunLosesSector(s[0], s[1..]);
        assert At(Coalesce(s), lba) != At(s, lba);
      }
    }
  }

  /** The smallest map on which the wrap shows: two extents whose sectors add up to 2^32. */
  lemma CoalesceCanLoseSectors()
    ensures var m := PlainMark(MISSING, NO_CONFIDENCE, 0);
            var s := [Extent(0, TWO_32 - 1, m), Extent(TWO_32 - 1, 1, m)];
            && ValidSet(s)
            && Coalesce(s) == [Extent(0, 0, m)]
            && (forall lba :: 0 <= lba < TWO_32 ==> At(s, lba) == Some(m))
            && (forall lba: nat :: At(Coalesce(s), lba) == None)
  {
    var m := PlainMark(MISSING, NO_CONFIDENCE, 0);
    var a, b := Extent(0, TWO_32 - 1, m), Extent(TWO_32 - 1, 1, m);
    var s := [a, b];
    assert s[1..] == [b] && [b][1..] == [];
    assert Merge(a, b) == Extent(0, 0, m);
    assert Coalesce(s) == CoalesceFrom(a, [b]) == CoalesceFrom(Merge(a, b), []) == [Merge(a, b)];
    assert [Merge(a, b)][1..] == [];
  }

  // ----- the result is canonical

  lemma {:induction false} CoalesceFromCanonical(current: Extent, rest: seq<Extent>)
    requires ValidSet([current] + rest) && RunsFit([current] + rest)
    ensures var r := CoalesceFrom(current, rest);
            Canonical(r) && r != [] && r[0].start == current.start && r[0].mark == current.mark
    decreases |rest|
  {
    if rest == [] {
      assert [current] + rest == [current];
      assert ([current] + rest)[0].Valid();
    } else {
      var next, tail := rest[0], rest[1..];
      assert [current] + rest == [current, next] + tail && rest == [next] + tail;
      if CanMerge(current, next) {
        MergeStepFits(current, next, tail);
        CoalesceFromCanonical(Merge(current, next), tail);
      } else {
        TailFits([current] + rest);
        assert ([current] + rest)[1..] == [next] + tail;
        CoalesceFromCanonical(next, tail);
        assert ([current] + rest)[0] == current && ([current] + rest)[1] == next;
        CanonicalCons(current, CoalesceFrom(next, tail));
      }
    }
  }

  lemma CanonicalCons(e: Extent, s: seq<Extent>)
    requires e.Valid() && Canonical(s) && s != [] && e.End() <= s[0].start && !CanMerge(e, s[0])
    ensures Canonical([e] + s)
  {
    var r := [e] + s;
    forall i | 0 < i < |r| ensures r[i-1].start <= r[i].start && !Overlaps(r[i-1], r[i]) && !CanMerge(r[i-1], r[i]) {
      assert r[i] == s[i-1];
      assert i > 1 ==> r[i-1] == s[i-2] && !CanMerge(s[i-2], s[i-1]);
    }
  }

  lemma CoalesceCanonical(s: seq<Extent>)
    requires ValidSet(s) && RunsFit(s)
    ensures Canonical(Coalesce(s)) && SameView(Coalesce(s), s)
  {
    CoalesceKeepsViewIff(s);
    if s != [] {
      assert [s[0]] + s[1..] == s;
      CoalesceFromCanonical(s[0], s[1..]);
    }
  }
}
