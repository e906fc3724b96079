/** Maps as jobs leave them: coalesced, and with no sector left unknown. Replay turns queued sectors into unknown ones
    without joining extents again (internal/mapfile/replay.go:52-57), so it is this that makes the list a job opens
    coalesced. */
module TidyMaps {
  import opened Prelude
  import opened Transitions
  import opened Extents
  import opened Applying
  import opened Replaying
  import opened TornTails
  import opened Media
  import opened RecoveryMap
  import opened Sessions
  import opened WriteAhead
  import opened CrashRecovery
  import opened Runs
  import opened Passes

  ghost predicate Tidy(s: seq<Extent>) {
    Canonical(s) && forall e :: e in s ==> e.mark.state != UNKNOWN
  }

  /** The journal of the map, before it is settled, leaves a tidy list. */
  ghost predicate TidyMap(body: bytes) {
    exists a :: OpensFrom(body, a) && Tidy(a.extents)
  }

  lemma SettlingKeepsDifference(a: Mark, b: Mark)
    requires ValidMark(a) && ValidMark(b) && a.state != UNKNOWN && b.state != UNKNOWN && SettledMark(a) == SettledMark(b)
    ensures a == b
  {
  }

  /** Settling a tidy list leaves it coalesced. */
  lemma SettledCanonical(s: seq<Extent>)
    requires Tidy(s)
    ensures Canonical(Settled(s))
  {
    hide Settled;
    var t := Settled(s);
    SettledValid(s, 0);
    forall i | 0 < i < |t| ensures !CanMerge(t[i-1], t[i]) {
      assert s[i-1] in s && s[i] in s;
      if CanMerge(t[i-1], t[i]) {
        SettlingKeepsDifference(s[i-1].mark, s[i].mark);
      }
    }
  }

  /** Without that it need not: here an unknown sector stands beside a queued one. */
  lemma SettlingCanLeaveNeighbours()
    ensures var s := [Extent(0, 1, PlainMark(UNKNOWN, NO_CONFIDENCE, 1)), Extent(1, 1, PlainMark(QUEUED, NO_CONFIDENCE, 1))];
            Canonical(s) && !Canonical(Settled(s))
  {
    hide Settled;
    var s := [Extent(0, 1, PlainMark(UNKNOWN, NO_CONFIDENCE, 1)), Extent(1, 1, PlainMark(QUEUED, NO_CONFIDENCE, 1))];
    assert CanMerge(Settled(s)[0], Settled(s)[1]);
  }

  /** The list a tidy map opens with is coalesced. */
  lemma TidyOpensCanonical(header: Header, body: bytes, g: Geometry)
    requires TidyMap(body) && StateOf(header, body, g).Ok?
    ensures Canonical(StateOf(header, body, g).value.extents)
  {
    hide Absorb, StateOf, Canonical, Settled;
    var a :| OpensFrom(body, a) && Tidy(a.extents);
    var b := OpenedFrom(header, body, g);
    SettledCanonical(a.extents);
  }

  lemma ListMark(s: seq<Extent>, e: Extent)
    requires ValidSet(s) && e in s
    ensures At(s, e.start) == Some(e.mark)
  {
    var i: nat :| i < |s| && s[i] == e;
    AtIndex(s, i, e.start);
  }

  lemma AppliedTidy(s: seq<Extent>, c: Extent, capacity: nat)
    requires Sound(s, capacity) && Tidy(s) && c.End() <= capacity && c.mark.state != UNKNOWN && Apply(s, c).Ok?
    ensures Sound(Apply(s, c).value, capacity) && Tidy(Apply(s, c).value)
  {
    hide Apply;
    ApplyOkPermits(s, c);
    ApplyRefinesOverride(s, c, capacity);
    var t := Apply(s, c).value;
    forall e | e in t ensures e.mark.state != UNKNOWN {
      ListMark(t, e);
      assert At(t, e.start) == if c.Covers(e.start) then Some(c.mark) else At(s, e.start);
      if !c.Covers(e.start) {
        var i := AtFound(s, e.start);
        assert s[i] in s;
      }
    }
  }

  lemma {:induction false} AllAppliedTidy(s: seq<Extent>, es: seq<Extent>, capacity: nat)
    requires Sound(s, capacity) && Tidy(s) && ApplyAll(s, es).Ok?
    requires forall e :: e in es ==> e.End() <= capacity && e.mark.state != UNKNOWN
    ensures Tidy(ApplyAll(s, es).value)
    decreases |es|
  {
    hide Apply, Sound, Tidy;
    if es != [] {
      AppliedTidy(s, es[0], capacity);
      AllAppliedTidy(Apply(s, es[0]).value, es[1..], capacity);
    }
  }

  /** What was handed to the persistence of a run, with data or without. */
  ghost predicate AllKnown(l: Ledger, capacity: nat) {
    && (forall e :: e in l.recovered ==> e.End() <= capacity && e.mark.state != UNKNOWN)
    && (forall e :: e in l.marks ==> e.End() <= capacity && e.mark.state != UNKNOWN)
  }

  lemma RunIsKnown(a: Moment, b: Moment, l: Ledger, sectorSize: nat, capacity: nat, limit: nat, live: bool)
    requires Progress(a, b, sectorSize, capacity, limit, live)
    requires a.recovered == [] && b.recovered == l.recovered && Harmless(l.marks, capacity)
    ensures AllKnown(l, capacity)
  {
    hide SectorProgress, Aligned, Canonical;
    var fulls := Fulls(Since(a, b));
    forall e | e in l.recovered ensures e.End() <= capacity && e.mark.state != UNKNOWN {
      var j :| 0 <= j < |l.recovered| && l.recovered[j] == e;
      assert Stands(fulls[j], b.calls[j], b.recovered[j]);
      assert fulls[j] in Since(a, b);
    }
  }

  /** Whatever a crash leaves of a tidy map that a run was writing is a tidy map. */
  lemma CrashLeavesTidy(d: Disk, start: bytes, header: Header, g: Geometry, l: Ledger, body: bytes)
    requires SoundMap(header, start, g) && StateOf(header, start, g).Ok? && TidyMap(start)
    requires CrashSafe(d, start, StateOf(header, start, g).value.last + 1, l) && AllKnown(l, g.sectorCount)
    requires d.map_.MayCrashTo(body) && StateOf(header, body, g).Ok?
    ensures TidyMap(body)
  {
    hide StateOf, Safe, OpensFrom, Tidy, SoundMap, WholeRecords, JournalOf, ApplyAll, Journal;
    var first := StateOf(header, start, g).value.last + 1;
    var es: seq<Extent>, sources: seq<Option<nat>> :| Safe(d, start, first, es, sources, l);
    var k := SafeBody(d, start, first, es, sources, l, body);
    SoundMapParts(header, start, g);
    var a, b, m := CutReadsFrom(header, start, g, first, es, k, body);
    OneState(start, a);
    SoundOpens(header, start, g, a);
    KnownSources(d, start, first, es, sources, l, g.sectorCount);
    AllAppliedTidy(a.extents, es[..m], g.sectorCount);
  }

  lemma SoundMapParts(header: Header, start: bytes, g: Geometry)
    requires SoundMap(header, start, g)
    ensures CheckpointLength(start).Ok? && WholeRecords(JournalOf(start))
  {
  }

  lemma OneState(body: bytes, a: Checkpoint)
    requires TidyMap(body) && OpensFrom(body, a)
    ensures Tidy(a.extents)
  {
    hide Absorb, Tidy;
  }

  lemma SoundOpens(header: Header, start: bytes, g: Geometry, a: Checkpoint)
    requires SoundMap(header, start, g) && StateOf(header, start, g).Ok? && OpensFrom(start, a)
    ensures Sound(a.extents, g.sectorCount)
  {
    hide Absorb, Sound, StateOf, SoundMap;
    OpensSettled(header, start, g);
  }

  lemma KnownSources(d: Disk, start: bytes, first: nat, es: seq<Extent>, sources: seq<Option<nat>>, l: Ledger, capacity: nat)
    requires Safe(d, start, first, es, sources, l) && AllKnown(l, capacity)
    ensures forall e :: e in es ==> e.End() <= capacity && e.mark.state != UNKNOWN
  {
    hide Backed, Journal;
    forall e | e in es ensures e.End() <= capacity && e.mark.state != UNKNOWN {
      var i :| 0 <= i < |es| && es[i] == e;
      if sources[i].Some? {
        assert l.recovered[sources[i].value] in l.recovered;
      }
    }
  }

  /** A created map is tidy. */
  lemma EmptyMapIsTidy(header: Header, g: Geometry)
    requires StateOf(header, EmptyMap(), g) == Ok(Checkpoint(0, []))
    ensures TidyMap(EmptyMap())
  {
    hide StateOf, EmptyMap, Absorb, OpensFrom, Settled;
    var a := OpenedFrom(header, EmptyMap(), g);
    assert |Settled(a.extents)| == |a.extents|;
  }

  ghost predicate LeavesTidy(d: Disk, header: Header, g: Geometry) {
    forall body: bytes :: d.map_.MayCrashTo(body) && StateOf(header, body, g).Ok? ==> TidyMap(body)
  }

  lemma AllLeaveTidy(h: seq<Disk>, start: bytes, header: Header, g: Geometry, first: nat, l: Ledger,
                     a: Moment, b: Moment, sectorSize: nat, limit: nat, live: bool)
    requires SoundMap(header, start, g) && StateOf(header, start, g).Ok? && first == StateOf(header, start, g).value.last + 1
    requires AllCrashSafe(h, start, first, l) && Progress(a, b, sectorSize, g.sectorCount, limit, live)
    requires a.recovered == [] && b.recovered == l.recovered && Harmless(l.marks, g.sectorCount)
    ensures TidyMap(start) ==> forall k :: 0 <= k < |h| ==> LeavesTidy(h[k], header, g)
  {
    hide StateOf, SoundMap, CrashSafe, Progress, Harmless, TidyMap, AllKnown;
    RunIsKnown(a, b, l, sectorSize, g.sectorCount, limit, live);
    if TidyMap(start) {
      forall k, body: bytes | 0 <= k < |h| && h[k].map_.MayCrashTo(body) && StateOf(header, body, g).Ok? ensures TidyMap(body) {
        CrashLeavesTidy(h[k], start, header, g, l, body);
      }
    }
  }
}
