/** Joining sector writes into positioned runs (internal/image/writer.go). */
module ImageWriter {
  import opened Prelude
  import opened Media

  function ByteAt(lba: nat, sectorSize: nat): nat {
    lba * sectorSize
  }

  datatype SectorWrite = SectorWrite(lba: uint64, sectorSize: uint32, data: bytes) {
    function Offset(): uint64 {
      Wrap64(ByteAt(lba, sectorSize))
    }

    /** The length is compared after truncation to 32 bits. */
    predicate Valid() {
      sectorSize != 0 && Wrap32(|data|) == sectorSize
    }

    function Positioned(): Write {
      Write(Offset(), data)
    }
  }

  datatype WriterPlan = WriterPlan(sectorSize: uint32, expectedSectors: uint64, writes: seq<SectorWrite>) {
    predicate Valid() {
      && sectorSize != 0
      && (forall i :: 0 <= i < |writes| ==>
            writes[i].Valid() && writes[i].sectorSize == sectorSize && (expectedSectors > 0 ==> writes[i].lba < expectedSectors))
      && (forall i :: 0 < i < |writes| ==> writes[i-1].lba < writes[i].lba)
    }

    /** No offset wraps: every sector begins within the 64-bit address range. */
    predicate Addressable() {
      forall i :: 0 <= i < |writes| ==> ByteAt(writes[i].lba, sectorSize) < TWO_64
    }

    /** A sector ends at or beyond the end of the address range and the next one begins where that end wraps to. */
    predicate WrapsAt(i: nat)
      requires 0 < i < |writes|
    {
      var end := writes[i-1].Offset() + |writes[i-1].data|;
      end >= TWO_64 && writes[i].Offset() == Wrap64(end)
    }

    predicate Unwrapped(n: nat)
      requires n <= |writes|
    {
      forall i :: 0 < i < n ==> !WrapsAt(i)
    }

    /** No buffer is 4 GiB or longer, so that the compared lengths are the lengths. */
    predicate Exact() {
      forall i :: 0 <= i < |writes| ==> |writes[i].data| < TWO_32
    }
  }

  /** The sector writes one by one. */
  function OneByOne(writes: seq<SectorWrite>): (r: seq<Write>)
    ensures |r| == |writes| && forall i :: 0 <= i < |r| ==> r[i] == writes[i].Positioned()
  {
    seq(|writes|, i requires 0 <= i < |writes| => writes[i].Positioned())
  }

  ghost predicate SameEffect(a: seq<Write>, b: seq<Write>) {
    forall c: Contents :: AllWritten(c, a) == AllWritten(c, b)
  }

  /** Each run ends before the next begins, and not where it begins: sorted, disjoint and maximal. */
  ghost predicate Apart(runs: seq<Write>) {
    forall i, j :: 0 <= i < j < |runs| ==> runs[i].offset + |runs[i].data| < runs[j].offset
  }

  lemma WrittenSnoc(c: Contents, ws: seq<Write>, w: Write)
    ensures AllWritten(c, ws + [w]) == Written(AllWritten(c, ws), w)
  {
    assert (ws + [w])[..|ws|] == ws;
  }

  lemma JoinedIsBoth(c: Contents, w: Write, next: Write)
    requires next.offset == w.offset + |w.data|
    ensures Written(Written(c, w), next) == Written(c, Write(w.offset, w.data + next.data))
  {
    hide Written;
    var all := Write(w.offset, w.data + next.data);
    var x, y := Written(Written(c, w), next), Written(c, all);
    forall b: nat ensures (b in x <==> b in y) && (b in x ==> x[b] == y[b]) {
      assert all.Covers(b) <==> w.Covers(b) || next.Covers(b);
      assert w.Covers(b) ==> all.data[b - w.offset] == w.data[b - w.offset];
      assert next.Covers(b) ==> all.data[b - w.offset] == next.data[b - next.offset];
    }
    assert x.Keys == y.Keys;
  }

  /** Lengthening the last run by an adjacent write has the effect of that write. */
  lemma EffectJoins(runs: seq<Write>, current: Write, next: Write, done: seq<Write>)
    requires SameEffect(runs + [current], done) && next.offset == current.offset + |current.data|
    ensures SameEffect(runs + [Write(current.offset, current.data + next.data)], done + [next])
  {
    var all := Write(current.offset, current.data + next.data);
    forall c: Contents ensures AllWritten(c, runs + [all]) == AllWritten(c, done + [next]) {
      WrittenSnoc(c, runs, all);
      WrittenSnoc(c, runs, current);
      WrittenSnoc(c, done, next);
      JoinedIsBoth(AllWritten(c, runs), current, next);
      assert AllWritten(c, runs + [current]) == AllWritten(c, done);
    }
  }

  lemma EffectAppends(runs: seq<Write>, next: Write, done: seq<Write>)
    requires SameEffect(runs, done)
    ensures SameEffect(runs + [next], done + [next])
  {
    forall c: Contents ensures AllWritten(c, runs + [next]) == AllWritten(c, done + [next]) {
      WrittenSnoc(c, runs, next);
      WrittenSnoc(c, done, next);
      assert AllWritten(c, runs) == AllWritten(c, done);
    }
  }

  lemma LaterOffset(a: nat, b: nat, sectorSize: nat)
    requires a < b
    ensures ByteAt(a, sectorSize) + sectorSize <= ByteAt(b, sectorSize)
  {
    assert (b - a - 1) * sectorSize >= 0;
  }

  /** Some run reaches further than any sector can. */
  ghost predicate Overshoots(runs: seq<Write>, sectorSize: nat) {
    exists k :: 0 <= k < |runs| && runs[k].data != [] && runs[k].offset + |runs[k].data| >= TWO_64 + sectorSize
  }

  /** What the loop has: as long as no join wrapped, `runs` followed by `current` do what the first n sector writes do. */
  ghost predicate Coalesced(plan: WriterPlan, runs: seq<Write>, current: Write, n: nat)
    requires 0 < n <= |plan.writes|
  {
    var end, last := current.offset + |current.data|, plan.writes[n-1].Offset() + |plan.writes[n-1].data|;
    && Wrap64(end) == Wrap64(last)
    && (plan.Unwrapped(n) ==> SameEffect(runs + [current], OneByOne(plan.writes[..n])) && end == last)
    && (!plan.Unwrapped(n) && plan.Exact() ==> Overshoots(runs + [current], plan.sectorSize))
    && (plan.Addressable() && plan.Exact() ==> Apart(runs + [current]))
  }

  lemma FirstRun(plan: WriterPlan)
    requires |plan.writes| > 0
    ensures Coalesced(plan, [], plan.writes[0].Positioned(), 1)
  {
    var w := plan.writes[0].Positioned();
    assert OneByOne(plan.writes[..1]) == [w] == [] + [w];
  }

  lemma NextWrite(plan: WriterPlan, n: nat)
    requires 0 < n < |plan.writes|
    ensures OneByOne(plan.writes[..n+1]) == OneByOne(plan.writes[..n]) + [plan.writes[n].Positioned()]
  {
  }

  lemma WrapAdd(x: nat, d: nat)
    ensures Wrap64(x + d) == Wrap64(Wrap64(x) + d)
  {
  }

  /** Whether the sector write behind the first n joins by wrapping. */
  lemma UnwrappedNext(plan: WriterPlan, n: nat)
    requires 0 < n < |plan.writes|
    ensures plan.Unwrapped(n + 1) <==> plan.Unwrapped(n) && !plan.WrapsAt(n)
  {
  }

  lemma Joined(x: nat, offset: uint64)
    requires offset == Wrap64(x)
    ensures offset == x <==> x < TWO_64
  {
  }

  lemma RunGrows(plan: WriterPlan, runs: seq<Write>, current: Write, n: nat, end: uint64)
    requires 0 < n < |plan.writes| && plan.Valid() && Coalesced(plan, runs, current, n)
    requires end == Wrap64(current.offset + |current.data|) && plan.writes[n].Offset() == end
    ensures Coalesced(plan, runs, Write(current.offset, current.data + plan.writes[n].data), n + 1)
  {
    hide SameEffect, OneByOne, Wrap64, ByteAt, Apart, Overshoots, SectorWrite.Offset, SectorWrite.Valid, WriterPlan.Valid;
    hide WriterPlan.Unwrapped, WriterPlan.Addressable, WriterPlan.Exact;
    var next := plan.writes[n].Positioned();
    var longer := Write(current.offset, current.data + next.data);
    var reach := current.offset + |current.data|;
    WrapAdd(reach, |next.data|);
    Joined(reach, next.offset);
    UnwrappedNext(plan, n);
    if plan.Unwrapped(n) && reach < TWO_64 {
      NextWrite(plan, n);
      EffectJoins(runs, current, next, OneByOne(plan.writes[..n]));
    }
    if plan.Exact() {
      if plan.Unwrapped(n) {
        ExactLength(plan, n);
        LastOvershoots(runs, longer, plan.sectorSize);
      } else {
        StillOvershoots(runs, current, longer, plan.sectorSize);
      }
      if plan.Addressable() {
        LastRunGrows(runs, current, longer);
      }
    }
  }

  lemma LastOvershoots(runs: seq<Write>, current: Write, sectorSize: nat)
    ensures current.data != [] && current.offset + |current.data| >= TWO_64 + sectorSize ==> Overshoots(runs + [current], sectorSize)
  {
    assert (runs + [current])[|runs|] == current;
  }

  lemma StillOvershoots(runs: seq<Write>, current: Write, longer: Write, sectorSize: nat)
    requires Overshoots(runs + [current], sectorSize) && longer.offset == current.offset && |current.data| <= |longer.data|
    ensures Overshoots(runs + [longer], sectorSize)
  {
    var a, b := runs + [current], runs + [longer];
    var k :| 0 <= k < |a| && a[k].data != [] && a[k].offset + |a[k].data| >= TWO_64 + sectorSize;
    assert b[k].data != [] && b[k].offset + |b[k].data| >= TWO_64 + sectorSize;
  }

  lemma LastRunGrows(runs: seq<Write>, current: Write, longer: Write)
    requires Apart(runs + [current]) && longer.offset == current.offset
    ensures Apart(runs + [longer])
  {
    var a, b := runs + [current], runs + [longer];
    forall i, j | 0 <= i < j < |b| ensures b[i].offset + |b[i].data| < b[j].offset {
      assert b[i] == a[i] && b[j].offset == a[j].offset;
    }
  }

  lemma RunEnds(plan: WriterPlan, runs: seq<Write>, current: Write, n: nat, end: uint64)
    requires 0 < n < |plan.writes| && plan.Valid() && Coalesced(plan, runs, current, n)
    requires end == Wrap64(current.offset + |current.data|) && plan.writes[n].Offset() != end
    ensures Coalesced(plan, runs + [current], plan.writes[n].Positioned(), n + 1)
  {
    hide SameEffect, OneByOne, Wrap64, ByteAt, Apart, Overshoots, SectorWrite.Offset, SectorWrite.Valid, WriterPlan.Valid;
    hide WriterPlan.Unwrapped, WriterPlan.Addressable, WriterPlan.Exact;
    var next := plan.writes[n].Positioned();
    UnwrappedNext(plan, n);
    if plan.Unwrapped(n) {
      NextWrite(plan, n);
      EffectAppends(runs + [current], next, OneByOne(plan.writes[..n]));
    } else if plan.Exact() {
      OvershootsMore(runs + [current], next, plan.sectorSize);
    }
    if plan.Addressable() && plan.Exact() {
      AddressableUnwrapped(plan, n);
      Joined(end, Wrap64(end));
      Fits(current.offset + |current.data|);
      RunAdded(runs, current, next);
    }
  }

  lemma OvershootsMore(runs: seq<Write>, next: Write, sectorSize: nat)
    requires Overshoots(runs, sectorSize)
    ensures Overshoots(runs + [next], sectorSize)
  {
    var k :| 0 <= k < |runs| && runs[k].data != [] && runs[k].offset + |runs[k].data| >= TWO_64 + sectorSize;
    assert (runs + [next])[k] == runs[k];
  }

  lemma ExactLength(plan: WriterPlan, i: nat)
    requires plan.Valid() && plan.Exact() && i < |plan.writes|
    ensures |plan.writes[i].data| == plan.sectorSize > 0
  {
    Fits(|plan.writes[i].data|);
  }

  /** As long as offsets do not wrap, no sector ends behind the beginning of the next. */
  lemma AddressableUnwrapped(plan: WriterPlan, n: nat)
    requires plan.Valid() && plan.Addressable() && plan.Exact() && 0 < n < |plan.writes|
    ensures plan.Unwrapped(n)
    ensures plan.writes[n-1].Offset() + |plan.writes[n-1].data| <= plan.writes[n].Offset()
  {
    hide Wrap64, ByteAt;
    forall i | 0 < i <= n ensures plan.writes[i-1].Offset() + |plan.writes[i-1].data| <= plan.writes[i].Offset() {
      var a, b := plan.writes[i-1], plan.writes[i];
      LaterOffset(a.lba, b.lba, plan.sectorSize);
      ExactLength(plan, i - 1);
      Fits(ByteAt(a.lba, plan.sectorSize));
      Fits(ByteAt(b.lba, plan.sectorSize));
    }
  }

  lemma RunAdded(runs: seq<Write>, current: Write, next: Write)
    requires Apart(runs + [current]) && current.offset + |current.data| < next.offset
    ensures Apart(runs + [current] + [next])
  {
    var a, b := runs + [current], runs + [current] + [next];
    forall i, j | 0 <= i < j < |b| ensures b[i].offset + |b[i].data| < b[j].offset {
      if j < |a| {
        assert b[i] == a[i] && b[j] == a[j];
      } else if i < |runs| {
        assert a[i].offset + |a[i].data| < a[|runs|].offset;
      }
    }
  }

  /** BuildPositionedWrites (writer.go:71). */
  method BuildPositionedWrites(plan: WriterPlan) returns (r: Option<seq<Write>>)
    ensures r.Some? <==> plan.Valid()
    ensures r.Some? && plan.Unwrapped(|plan.writes|) ==> SameEffect(r.value, OneByOne(plan.writes))
    ensures r.Some? && plan.Exact() ==> (SameEffect(r.value, OneByOne(plan.writes)) <==> plan.Unwrapped(|plan.writes|))
    ensures r.Some? && plan.Exact() && plan.Addressable() ==> Apart(r.value)
  {
    hide SameEffect, Apart, Coalesced, Wrap64;
    if !plan.Valid() {
      return None;
    }
    if |plan.writes| == 0 {
      NothingToWrite();
      assert OneByOne(plan.writes) == [];
      return Some([]);
    }
    var positioned: seq<Write> := [];
    var current := plan.writes[0].Positioned();
    FirstRun(plan);
    for i := 1 to |plan.writes|
      invariant Coalesced(plan, positioned, current, i)
    {
      var write := plan.writes[i];
      var currentEnd := Wrap64(current.offset + |current.data|);
      if write.Offset() == currentEnd {
        RunGrows(plan, positioned, current, i, currentEnd);
        current := Write(current.offset, current.data + write.data);
        continue;
      }
      RunEnds(plan, positioned, current, i, currentEnd);
      positioned := positioned + [current];
      current := write.Positioned();
    }
    positioned := positioned + [current];
    AllCoalesced(plan, positioned[..|positioned|-1], current);
    return Some(positioned);
  }

  lemma NothingToWrite()
    ensures SameEffect([], []) && Apart([])
  {
  }

  lemma AllCoalesced(plan: WriterPlan, runs: seq<Write>, current: Write)
    requires 0 < |plan.writes| && plan.Valid() && Coalesced(plan, runs, current, |plan.writes|)
    ensures plan.Unwrapped(|plan.writes|) ==> SameEffect(runs + [current], OneByOne(plan.writes))
    ensures plan.Exact() && SameEffect(runs + [current], OneByOne(plan.writes)) ==> plan.Unwrapped(|plan.writes|)
    ensures plan.Exact() && plan.Addressable() ==> Apart(runs + [current])
  {
    hide SameEffect, OneByOne, Wrap64, Apart, Overshoots, SectorWrite.Offset, WriterPlan.Valid;
    assert plan.writes[..|plan.writes|] == plan.writes;
    if plan.Exact() && !plan.Unwrapped(|plan.writes|) {
      OvershootShows(plan, runs + [current]);
    }
  }

  /** The last byte of an overshooting run is one that no sector write touches. */
  lemma OvershootShows(plan: WriterPlan, runs: seq<Write>)
    requires plan.Valid() && plan.Exact() && Overshoots(runs, plan.sectorSize)
    ensures !SameEffect(runs, OneByOne(plan.writes))
  {
    hide WriterPlan.Valid, WriterPlan.Exact, Wrap64;
    var k :| 0 <= k < |runs| && runs[k].data != [] && runs[k].offset + |runs[k].data| >= TWO_64 + plan.sectorSize;
    var b := runs[k].offset + |runs[k].data| - 1;
    WrittenWhere(map[], runs, b);
    WrittenWhere(map[], OneByOne(plan.writes), b);
    forall i | 0 <= i < |plan.writes| ensures !OneByOne(plan.writes)[i].Covers(b) {
      ExactLength(plan, i);
    }
    assert runs[k].Covers(b);
    assert AllWritten(map[], runs) != AllWritten(map[], OneByOne(plan.writes));
  }

  lemma {:induction false} WrittenWhere(c: Contents, ws: seq<Write>, b: nat)
    ensures b in AllWritten(c, ws) <==> b in c || exists k :: 0 <= k < |ws| && ws[k].Covers(b)
  {
    if ws != [] {
      var front := ws[..|ws|-1];
      WrittenWhere(c, front, b);
      assert forall k :: 0 <= k < |front| ==> front[k] == ws[k];
    }
  }

  /** With a declared size no run leaves the image: whatever byte a run writes lies before the end of the last sector. */
  lemma RunsStayInside(plan: WriterPlan, runs: seq<Write>)
    requires plan.Valid() && plan.Exact() && 0 < plan.expectedSectors && SameEffect(runs, OneByOne(plan.writes))
    requires ByteAt(plan.expectedSectors, plan.sectorSize) <= TWO_64
    ensures forall k, b: nat :: 0 <= k < |runs| && runs[k].Covers(b) ==> b < ByteAt(plan.expectedSectors, plan.sectorSize)
  {
    hide ByteAt, Wrap64, WriterPlan.Exact;
    forall k, b: nat | 0 <= k < |runs| && runs[k].Covers(b) ensures b < ByteAt(plan.expectedSectors, plan.sectorSize) {
      WrittenWhere(map[], runs, b);
      WrittenWhere(map[], OneByOne(plan.writes), b);
      assert AllWritten(map[], runs) == AllWritten(map[], OneByOne(plan.writes));
      var i :| 0 <= i < |plan.writes| && OneByOne(plan.writes)[i].Covers(b);
      ExactLength(plan, i);
      LaterOffset(plan.writes[i].lba, plan.expectedSectors, plan.sectorSize);
      Fits(ByteAt(plan.writes[i].lba, plan.sectorSize));
    }
  }

  /** Past the 64-bit address range the runs are not the writes: here the second sector's offset wraps to zero, where
      the first run seems to end, so that its bytes end up behind the first sector instead of at the start. */
  lemma WrappedRunMisplaces()
    ensures var plan := WriterPlan(2, 0, [SectorWrite(0x7FFF_FFFF_FFFF_FFFF, 2, [1, 1]), SectorWrite(0x8000_0000_0000_0000, 2, [2, 2])]);
            plan.Valid() && plan.Exact() && !plan.Unwrapped(2)
  {
    var w, next := SectorWrite(0x7FFF_FFFF_FFFF_FFFF, 2, [1, 1]), SectorWrite(0x8000_0000_0000_0000, 2, [2, 2]);
    var plan := WriterPlan(2, 0, [w, next]);
    assert w.Offset() == 0xFFFF_FFFF_FFFF_FFFE && next.Offset() == 0;
    assert plan.writes[0] == w && plan.writes[1] == next && plan.WrapsAt(1);
  }
}
