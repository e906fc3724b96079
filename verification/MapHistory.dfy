/** The life of a map file (internal/recoverymap): it is created and then goes through any number of sessions, each of
    which opens it, stages, applies and flushes transitions, and closes it; the system may go down at any point. */
module MapHistory {
  import opened Prelude
  import opened Transitions
  import opened Extents
  import opened Applying
  import opened Replaying
  import opened TornTails
  import opened Media
  import opened RecoveryMap
  import opened Sessions
  import opened Persistence
  import opened Closing

  // ----- what the transitions say of a sector

  /** The last transition that covers the sector, or what was said of it before. */
  function Over(m: Option<Mark>, es: seq<Extent>, lba: nat): Option<Mark> {
    if es == [] then m
    else if es[|es|-1].Covers(lba) then Some(es[|es|-1].mark)
    else Over(m, es[..|es|-1], lba)
  }

  /** The same over sessions, at the end of each of which queued reads are forgotten. */
  function Account(script: seq<seq<Extent>>, lba: nat): Option<Mark> {
    if script == [] then None
    else SettledView(Over(Account(script[..|script|-1], lba), script[|script|-1], lba))
  }

  ghost predicate Tells(s: seq<Extent>, script: seq<seq<Extent>>) {
    forall lba: nat :: At(s, lba) == Account(script, lba)
  }

  lemma {:induction false} AppliedOver(s: seq<Extent>, es: seq<Extent>, capacity: nat, lba: nat)
    requires Sound(s, capacity) && Within(es, capacity) && ApplyAll(s, es).Ok?
    ensures Sound(ApplyAll(s, es).value, capacity) && At(ApplyAll(s, es).value, lba) == Over(At(s, lba), es, lba)
    decreases |es|
  {
    hide Apply, ValidSet, ApplyAll;
    if es == [] {
      AppliedNone(s);
    } else {
      var p, e := es[..|es|-1], es[|es|-1];
      assert es == p + [e];
      ApplyAllConcat(s, p, [e]);
      AppliedOver(s, p, capacity, lba);
      var t := ApplyAll(s, p).value;
      ApplyAllSnoc(s, p, e);
      ApplyOkPermits(t, e);
      ApplyRefinesOverride(t, e, capacity);
      assert At(Apply(t, e).value, lba) == if e.Covers(lba) then Some(e.mark) else At(t, lba);
    }
  }

  lemma AppliedNone(s: seq<Extent>)
    ensures ApplyAll(s, []) == Ok(s)
  {
  }

  /** A list read back as settled transitions over what was told before tells the longer script. */
  lemma ToldFurther(s: seq<Extent>, base: seq<Extent>, script: seq<seq<Extent>>, es: seq<Extent>, capacity: nat)
    requires Sound(base, capacity) && Tells(base, script) && Within(es, capacity) && ApplyAll(base, es).Ok?
    requires SameView(s, Settled(ApplyAll(base, es).value))
    ensures Tells(s, script + [es])
  {
    hide Sound, Within, Settled, ApplyAll;
    var longer := script + [es];
    assert longer[..|longer|-1] == script;
    forall lba: nat ensures At(s, lba) == Account(longer, lba) {
      AppliedOver(base, es, capacity, lba);
      AtSettled(ApplyAll(base, es).value, lba);
      assert At(base, lba) == Account(script, lba);
    }
  }

  // ----- the crash points of a session

  /** Every recorded state of the map lies between the session's start and the journal of these transitions. */
  ghost predicate OnTheWay(h: seq<Disk>, header: Header, start: bytes, first: nat, es: seq<Extent>) {
    && Journalable(first, es)
    && forall k :: 0 <= k < |h| ==>
         && h[k].map_.header.Described() == header.Described()
         && start <= h[k].map_.synced && h[k].map_.Body() <= start + Journal(first, es)
  }

  lemma FurtherOnTheWay(h: seq<Disk>, header: Header, start: bytes, first: nat, es: seq<Extent>, e: Extent)
    requires OnTheWay(h, header, start, first, es) && Journalable(first, es + [e])
    ensures OnTheWay(h, header, start, first, es + [e])
  {
    hide Journal;
    JournalConcat(first, es, first + |es|, [e]);
    Associative(start, Journal(first, es), Journal(first + |es|, [e]));
  }

  /** Appending what is staged, and perhaps one more transition, passes only such states. */
  lemma AppendingOnTheWay(h0: seq<Disk>, h1: seq<Disk>, from: Disk, failed: bool, header: Header, start: bytes, s: Session,
                          extra: seq<Extent>, data: bytes)
    requires OnTheWay(h0, header, start, s.First(), s.All()) && Recorded(h0, h1, from, Flat(s.records) + data) && (failed ==> h1 == h0)
    requires Consistent(s) && Journalable(s.First(), s.All() + extra)
    requires start + Journal(s.First(), s.All() + extra) == (start + Journal(s.First(), s.All())) + data
    requires !failed ==> from.map_.header.Described() == header.Described()
    requires !failed ==> from.map_.unsynced == [] && Journalable(s.First(), s.written) && from.map_.synced == start + Journal(s.First(), s.written)
    ensures OnTheWay(h1, header, start, s.First(), s.All() + extra)
  {
    hide Journal, Flat, Consistent, Journalable;
    var all := start + Journal(s.First(), s.All() + extra);
    FlushedConsistent(s, start);
    forall k | 0 <= k < |h1| ensures h1[k].map_.header.Described() == header.Described()
                                     && start <= h1[k].map_.synced && h1[k].map_.Body() <= all {
      if k < |h0| {
        assert h1[k] == h0[k];
      } else {
        assert Grows(h1[k], from, Flat(s.records) + data);
        BodyOfSynced(from.map_);
        Associative(from.map_.Body(), Flat(s.records), data);
      }
    }
  }

  /** These transitions explain every recorded state of a map that began as `base`. */
  ghost predicate Explains(h: seq<Disk>, header: Header, start: bytes, g: Geometry, base: Checkpoint, es: seq<Extent>) {
    OnTheWay(h, header, start, base.last + 1, es) && ApplyAll(base.extents, es).Ok? && Within(es, g.sectorCount)
  }

  /** Whatever a crash at a recorded state leaves of the map reads as the account of some of the last session's
      transitions, in order from the first, behind those of the earlier sessions. */
  ghost predicate CrashTells(h: seq<Disk>, g: Geometry, script: seq<seq<Extent>>, es: seq<Extent>) {
    forall k, body: bytes :: 0 <= k < |h| && h[k].map_.MayCrashTo(body) ==> CutTells(h[k].map_.header, body, g, script, es)
  }

  ghost predicate CutTells(header: Header, body: bytes, g: Geometry, script: seq<seq<Extent>>, es: seq<Extent>) {
    StateOf(header, body, g).Ok? && exists m :: 0 <= m <= |es| && Tells(StateOf(header, body, g).value.extents, script + [es[..m]])
  }

  /** A session that has journaled these transitions. */
  function Journaled(base: Checkpoint, es: seq<Extent>): Session
    requires ApplyAll(base.extents, es).Ok?
  {
    var extents := ApplyAll(base.extents, es).value;
    Session(base, es, [], extents, extents, Sequence(base.last + 1 + |es|), base.last + 1 + |es|, [], 0)
  }

  lemma JournaledConsistent(base: Checkpoint, es: seq<Extent>)
    requires Journalable(base.last + 1, es) && ApplyAll(base.extents, es).Ok?
    ensures Consistent(Journaled(base, es)) && Journaled(base, es).All() == es
  {
    hide ApplyAll;
    assert es + [] == es;
  }

  lemma SameDescription(a: Header, b: Header, body: bytes, g: Geometry)
    requires a.Described() == b.Described()
    ensures StateOf(a, body, g) == StateOf(b, body, g) && (SoundMap(a, body, g) <==> SoundMap(b, body, g))
  {
    SameMap(a, b.clean, body, g);
  }

  lemma ExplainedCrash(disk: Disk, header: Header, start: bytes, g: Geometry, base: Checkpoint, script: seq<seq<Extent>>, es: seq<Extent>, body: bytes)
    requires SoundMap(header, start, g) && StateOf(header, start, g) == Ok(base) && Tells(base.extents, script)
    requires Explains([disk], header, start, g, base, es) && disk.map_.MayCrashTo(body)
    ensures CutTells(disk.map_.header, body, g, script, es)
  {
    hide StateOf, SoundMap, ApplyAll, Journal, Tells, Settled, Sound;
    var s := Journaled(base, es);
    JournaledConsistent(base, es);
    assert [disk][0] == disk;
    var all := Journal(s.First(), es);
    var k := |body| - |start|;
    assert body == start + all[..k];
    var m := CutSessionReadsBack(header, start, g, s, k);
    SameDescription(disk.map_.header, header, body, g);
    OpensSound(header, start, g);
    ToldFurther(StateOf(header, body, g).value.extents, base.extents, script, es[..m], g.sectorCount);
  }

  lemma ExplainedCrashes(h: seq<Disk>, header: Header, start: bytes, g: Geometry, base: Checkpoint, script: seq<seq<Extent>>, es: seq<Extent>)
    requires SoundMap(header, start, g) && StateOf(header, start, g) == Ok(base) && Tells(base.extents, script)
    requires Explains(h, header, start, g, base, es)
    ensures CrashTells(h, g, script, es)
  {
    hide StateOf, SoundMap, Tells, CutTells, ApplyAll, Journal;
    forall k, body: bytes | 0 <= k < |h| && h[k].map_.MayCrashTo(body) ensures CutTells(h[k].map_.header, body, g, script, es) {
      assert OnTheWay([h[k]], header, start, base.last + 1, es);
      ExplainedCrash(h[k], header, start, g, base, script, es, body);
    }
  }

  // ----- one step of a session

  /** A store over a sound map in the midst of a session that has made these transitions. */
  ghost predicate Midway(store: Store, g: Geometry, es: seq<Extent>)
    reads store, store.medium
  {
    && store.Valid() && store.Coherent() && store.session.All() == es && Within(es, g.sectorCount)
    && SoundMap(store.header, store.start, g) && StateOf(store.header, store.start, g) == Ok(store.session.base)
    && OnTheWay(store.medium.history, store.header, store.start, store.session.First(), es)
  }

  lemma MidwayParts(store: Store, g: Geometry, es: seq<Extent>)
    requires Midway(store, g, es)
    ensures store.session.records == store.pendingRecords && store.session.next == store.nextSequence && store.session.extents == store.extents
    ensures Consistent(store.session) && store.session.All() == es && Journalable(store.session.First(), es)
    ensures OnTheWay(store.medium.history, store.header, store.start, store.session.First(), es)
    ensures store.medium.mapFile.header.Described() == store.header.Described()
    ensures !store.medium.failed ==>
              && store.medium.mapFile.unsynced == []
              && Journalable(store.session.First(), store.session.written)
              && store.medium.mapFile.synced == store.start + Journal(store.session.First(), store.session.written)
  {
    hide Consistent, Journal;
  }

  lemma MidwaySound(store: Store, g: Geometry, es: seq<Extent>)
    requires Midway(store, g, es)
    ensures SoundMap(store.header, store.start, g) && StateOf(store.header, store.start, g) == Ok(store.session.base)
  {
    hide SoundMap, StateOf;
  }

  /** Where a session is after one more transition, or after a step that failed. */
  ghost predicate Stepped(store: Store, g: Geometry, es: seq<Extent>, e: Extent, ok: bool)
    reads store, store.medium
  {
    if ok then Midway(store, g, es + [e])
    else Explains(store.medium.history, store.header, store.start, g, store.session.base, es)
         || Explains(store.medium.history, store.header, store.start, g, store.session.base, es + [e])
  }

  method Stage(store: Store, g: Geometry, e: Extent, ghost es: seq<Extent>) returns (ok: bool)
    requires Midway(store, g, es) && e.End() <= g.sectorCount
    modifies store
    ensures Stepped(store, g, es, e, ok)
    ensures store.header == old(store.header) && store.session.base == old(store.session.base) && store.closed == old(store.closed)
  {
    hide Consistent, Journal, SoundMap, StateOf, Apply, RecordBytes, OnTheWay, Explains, Store.Valid, Store.Coherent, Staged;
    ghost var s := store.session;
    MidwayExplains(store, g, es);
    MidwayParts(store, g, es);
    MidwaySound(store, g, es);
    var staged := store.StageExtent(e);
    if staged.Some? {
      return false;
    }
    StagedMidway(store, g, es, s, e, RecordBytes(s.next, e));
    return true;
  }

  lemma StagedMidway(store: Store, g: Geometry, es: seq<Extent>, s: Session, e: Extent, record: bytes)
    requires store.Valid() && store.session == Staged(s, e, store.extents, record)
    requires s.All() == es && Within(es, g.sectorCount) && e.End() <= g.sectorCount
    requires SoundMap(store.header, store.start, g) && StateOf(store.header, store.start, g) == Ok(s.base)
    requires OnTheWay(store.medium.history, store.header, store.start, s.First(), es)
    requires store.medium.mapFile.header.Described() == store.header.Described()
    requires !store.medium.failed ==>
               && store.medium.mapFile.unsynced == [] && Journalable(s.First(), s.written)
               && store.medium.mapFile.synced == store.start + Journal(s.First(), s.written)
    ensures Midway(store, g, es + [e]) && store.session.base == s.base
  {
    hide Consistent, Journal, SoundMap, StateOf, OnTheWay;
    StagedAll(s, e, store.extents, record);
    MidwayJournalable(store);
    FurtherOnTheWay(store.medium.history, store.header, store.start, s.First(), es, e);
  }

  lemma MidwayJournalable(store: Store)
    requires store.Valid()
    ensures Journalable(store.session.First(), store.session.All())
  {
  }

  method ApplyNow(store: Store, g: Geometry, e: Extent, ghost es: seq<Extent>) returns (ok: bool)
    requires Midway(store, g, es) && e.End() <= g.sectorCount
    modifies store, store.medium
    ensures Stepped(store, g, es, e, ok) && (ok ==> store.medium.failed == old(store.medium.failed))
    ensures store.header == old(store.header) && store.session.base == old(store.session.base) && store.closed == old(store.closed)
  {
    hide Consistent, Journal, SoundMap, StateOf, Apply, RecordBytes, OnTheWay, Flat, Recorded, Grows, Journalable, Store.Valid, Store.Coherent,
         ApplyAll;
    ghost var s, from, before, failed := store.session, store.medium.Now(), store.medium.history, store.medium.failed;
    MidwayParts(store, g, es);
    var applied, data := store.ApplyDurably(e);
    ApplyingExplains(before, store.medium.history, from, failed, store.header, store.start, g, s, e, data);
    FlushedAll(s, e, store.extents);
    return applied.None?;
  }

  lemma MoreApplied(s: Session, e: Extent)
    requires Consistent(s)
    ensures ApplyAll(s.base.extents, s.All()) == Ok(s.extents)
    ensures Apply(s.extents, e).Ok? ==> ApplyAll(s.base.extents, s.All() + [e]).Ok?
  {
    hide Apply;
    ApplyAllSnoc(s.base.extents, s.All(), e);
  }

  lemma MidwayExplains(store: Store, g: Geometry, es: seq<Extent>)
    requires Midway(store, g, es)
    ensures Explains(store.medium.history, store.header, store.start, g, store.session.base, es)
  {
    hide OnTheWay, SoundMap, StateOf, Journal;
  }

  lemma ApplyingOnTheWay(h0: seq<Disk>, h1: seq<Disk>, from: Disk, failed: bool, header: Header, start: bytes, s: Session,
                         e: Extent, data: bytes)
    requires OnTheWay(h0, header, start, s.First(), s.All()) && Recorded(h0, h1, from, Flat(s.records) + data) && (failed ==> h1 == h0)
    requires Consistent(s) && (data != [] ==> e.Valid() && s.next != 0 && data == RecordBytes(s.next, e))
    requires !failed ==> from.map_.header.Described() == header.Described()
    requires !failed ==> from.map_.unsynced == [] && Journalable(s.First(), s.written) && from.map_.synced == start + Journal(s.First(), s.written)
    ensures OnTheWay(h1, header, start, s.First(), if data == [] then s.All() else s.All() + [e])
  {
    hide Consistent, Journal, RecordBytes, OnTheWay, Flat, Recorded, Journalable;
    if data == [] {
      FlushedConsistent(s, start);
      NothingMore(start, s);
      AppendingOnTheWay(h0, h1, from, failed, header, start, s, [], []);
    } else {
      OneMoreJournaled(s, e, start);
      AppendingOnTheWay(h0, h1, from, failed, header, start, s, [e], data);
    }
  }

  lemma ApplyingExplains(h0: seq<Disk>, h1: seq<Disk>, from: Disk, failed: bool, header: Header, start: bytes, g: Geometry, s: Session,
                         e: Extent, data: bytes)
    requires OnTheWay(h0, header, start, s.First(), s.All()) && Recorded(h0, h1, from, Flat(s.records) + data) && (failed ==> h1 == h0)
    requires Consistent(s) && (data != [] ==> Apply(s.extents, e).Ok? && e.Valid() && s.next != 0 && data == RecordBytes(s.next, e))
    requires !failed ==> from.map_.header.Described() == header.Described()
    requires !failed ==> from.map_.unsynced == [] && Journalable(s.First(), s.written) && from.map_.synced == start + Journal(s.First(), s.written)
    requires Within(s.All(), g.sectorCount) && e.End() <= g.sectorCount
    ensures Explains(h1, header, start, g, s.base, if data == [] then s.All() else s.All() + [e])
  {
    hide Consistent, Journal, RecordBytes, OnTheWay, Flat, Recorded, Journalable, Apply, ApplyAll;
    ApplyingOnTheWay(h0, h1, from, failed, header, start, s, e, data);
    MoreApplied(s, e);
  }

  lemma FlushedAll(s: Session, e: Extent, extents: seq<Extent>)
    ensures Flushed(s).All() == s.All() && Flushed(s).First() == s.First() && Flushed(s).base == s.base
    ensures var t := Appended(Flushed(s), e, extents); t.All() == s.All() + [e] && t.First() == s.First() && t.base == s.base
  {
    assert s.All() + [] == s.All();
    assert (s.All() + [e]) + [] == s.All() + [e];
  }

  lemma NothingMore(start: bytes, s: Session)
    requires Journalable(s.First(), s.All())
    ensures s.All() + [] == s.All()
    ensures start + Journal(s.First(), s.All() + []) == (start + Journal(s.First(), s.All())) + []
  {
    assert s.All() + [] == s.All();
  }

  method FlushNow(store: Store, g: Geometry, ghost es: seq<Extent>) returns (ok: bool)
    requires Midway(store, g, es)
    modifies store, store.medium
    ensures ok ==> Midway(store, g, es) && store.medium.failed == old(store.medium.failed)
    ensures Explains(store.medium.history, store.header, store.start, g, store.session.base, es)
    ensures store.header == old(store.header) && store.session.base == old(store.session.base) && store.closed == old(store.closed)
  {
    hide Consistent, Journal, SoundMap, StateOf, OnTheWay, Flat, Recorded, Grows, Journalable, Store.Valid, Store.Coherent, ApplyAll;
    ghost var s, from, before, failed := store.session, store.medium.Now(), store.medium.history, store.medium.failed;
    MidwayParts(store, g, es);
    var flushed := store.Flush();
    FlushingExplains(before, store.medium.history, from, failed, store.header, store.start, g, s);
    FlushedAll(s, Extent(0, 0, PlainMark(UNKNOWN, NO_CONFIDENCE, 0)), store.extents);
    return flushed.None?;
  }

  lemma FlushingExplains(h0: seq<Disk>, h1: seq<Disk>, from: Disk, failed: bool, header: Header, start: bytes, g: Geometry, s: Session)
    requires OnTheWay(h0, header, start, s.First(), s.All()) && Recorded(h0, h1, from, Flat(s.records)) && (failed ==> h1 == h0)
    requires Consistent(s) && Within(s.All(), g.sectorCount)
    requires !failed ==> from.map_.header.Described() == header.Described()
    requires !failed ==> from.map_.unsynced == [] && Journalable(s.First(), s.written) && from.map_.synced == start + Journal(s.First(), s.written)
    ensures Explains(h1, header, start, g, s.base, s.All())
  {
    hide Consistent, Journal, OnTheWay, Flat, Recorded, Journalable, ApplyAll;
    FlushedConsistent(s, start);
    NothingMore(start, s);
    assert Flat(s.records) + [] == Flat(s.records);
    AppendingOnTheWay(h0, h1, from, failed, header, start, s, [], []);
    MoreApplied(s, Extent(0, 0, PlainMark(UNKNOWN, NO_CONFIDENCE, 0)));
  }

  // ----- a session, and sessions one after another

  /** Some of the transitions, in order from the first, explain what is recorded. */
  ghost predicate PartExplains(store: Store, g: Geometry, es: seq<Extent>)
    reads store, store.medium
  {
    exists m :: 0 <= m <= |es| && Explains(store.medium.history, store.header, store.start, g, store.session.base, es[..m])
  }

  lemma SteppedPart(store: Store, g: Geometry, es: seq<Extent>, i: nat)
    requires i < |es| && Stepped(store, g, es[..i], es[i], false)
    ensures PartExplains(store, g, es)
  {
    hide Explains;
    assert es[..i] + [es[i]] == es[..i+1];
  }

  lemma WholePart(store: Store, g: Geometry, es: seq<Extent>, i: nat)
    requires i <= |es| && Explains(store.medium.history, store.header, store.start, g, store.session.base, es[..i])
    ensures PartExplains(store, g, es)
  {
  }

  /** Each transition is staged or applied at once, and what is staged is flushed at will. */
  method RunSession(store: Store, g: Geometry, es: seq<Extent>) returns (ok: bool)
    requires Midway(store, g, []) && Within(es, g.sectorCount)
    modifies store, store.medium
    ensures ok ==> Midway(store, g, es) && store.medium.failed == old(store.medium.failed)
    ensures !ok ==> PartExplains(store, g, es)
    ensures store.header == old(store.header) && store.session.base == old(store.session.base) && store.closed == old(store.closed)
  {
    hide Midway, Explains, PartExplains, Stepped;
    assert es[..0] == [];
    for i := 0 to |es|
      invariant Midway(store, g, es[..i]) && store.medium.failed == old(store.medium.failed)
      invariant store.header == old(store.header) && store.session.base == old(store.session.base) && store.closed == old(store.closed)
    {
      assert es[..i] + [es[i]] == es[..i+1];
      var atOnce: bool := *;
      if atOnce {
        ok := ApplyNow(store, g, es[i], es[..i]);
      } else {
        ok := Stage(store, g, es[i], es[..i]);
      }
      if !ok {
        SteppedPart(store, g, es, i);
        return;
      }
      SteppedOn(store, g, es[..i], es[i]);
      var flush: bool := *;
      if flush {
        ok := FlushNow(store, g, es[..i+1]);
        if !ok {
          WholePart(store, g, es, i + 1);
          return;
        }
      }
    }
    assert es[..|es|] == es;
    return true;
  }

  lemma SteppedOn(store: Store, g: Geometry, es: seq<Extent>, e: Extent)
    requires Stepped(store, g, es, e, true)
    ensures Midway(store, g, es + [e])
  {
  }

  /** The session's store is closed; the file then holds the journal of all its transitions. */
  method CloseSession(store: Store, g: Geometry, ghost script: seq<seq<Extent>>, es: seq<Extent>) returns (ok: bool)
    requires Midway(store, g, es) && !store.closed && !store.medium.failed && Tells(store.session.base.extents, script)
    modifies store, store.medium
    ensures CrashTells(store.medium.history, g, script, es)
    ensures ok ==> Leaves(store.medium.mapFile, g, script + [es])
  {
    hide Consistent, Journal, SoundMap, StateOf, OnTheWay, Flat, Recorded, Grows, Journalable, Store.Valid, Store.Coherent, ApplyAll, Tells, CrashTells, Leaves;
    ghost var s, from, before, failed, header := store.session, store.medium.Now(), store.medium.history, store.medium.failed, store.header;
    MidwayParts(store, g, es);
    var closing := store.Close(true);
    FlushingExplains(before, store.medium.history, from, failed, header, store.start, g, s);
    ExplainedCrashes(store.medium.history, header, store.start, g, s.base, script, es);
    if closing.None? {
      LeftByClose(store, header, g, s, script);
    }
    return closing.None?;
  }

  /** A sound map file that reads as the account of these sessions. */
  ghost predicate Leaves(f: MapFile, g: Geometry, script: seq<seq<Extent>>) {
    SoundMap(f.header, f.Body(), g) && StateOf(f.header, f.Body(), g).Ok? && Tells(StateOf(f.header, f.Body(), g).value.extents, script)
  }

  lemma LeftByClose(store: Store, header: Header, g: Geometry, s: Session, script: seq<seq<Extent>>)
    requires store.Valid() && store.Coherent() && !store.medium.failed && store.session == Flushed(s)
    requires store.medium.mapFile.header == header.(clean := true)
    requires SoundMap(header, store.start, g) && SessionOver(header, store.start, g, s) && Tells(s.base.extents, script)
    ensures Leaves(store.medium.mapFile, g, script + [s.All()])
  {
    hide Consistent, Journal, SoundMap, StateOf, ApplyAll, Settled, Tells, Sound;
    var f, file := Flushed(s), store.medium.mapFile;
    FlushedConsistent(s, store.start);
    FlushedFields(s);
    WorkingIsApplied(s);
    DurableReadsBack(header, store.start, g, f);
    SessionKeepsMapSound(header, store.start, g, f);
    BodyOfSynced(file);
    SameMap(header, true, file.Body(), g);
    OpensSound(header, store.start, g);
    ToldFurther(StateOf(header, file.Body(), g).value.extents, s.base.extents, script, s.All(), g.sectorCount);
  }

  lemma BegunMidway(store: Store, g: Geometry)
    requires store.Valid() && store.Coherent() && store.session == Begun(store.session.base)
    requires store.medium.history == [store.medium.Now()] && !store.medium.failed
    requires SoundMap(store.header, store.start, g) && StateOf(store.header, store.start, g) == Ok(store.session.base)
    ensures Midway(store, g, [])
  {
    hide SoundMap, StateOf, Consistent;
    assert [] + [] == store.session.All();
    JournalNothing(store.session.First());
    BodyOfSynced(store.medium.mapFile);
    assert store.start + [] == store.start;
    MidwayJournalable(store);
  }

  lemma NothingTold()
    ensures Tells([], [])
  {
  }

  lemma PartTells(store: Store, g: Geometry, script: seq<seq<Extent>>, es: seq<Extent>)
    requires SoundMap(store.header, store.start, g) && StateOf(store.header, store.start, g) == Ok(store.session.base)
    requires Tells(store.session.base.extents, script) && PartExplains(store, g, es)
    ensures CrashTells(store.medium.history, g, script, es)
  {
    hide SoundMap, StateOf, Tells, Explains;
    var h := store.medium.history;
    var m :| 0 <= m <= |es| && Explains(h, store.header, store.start, g, store.session.base, es[..m]);
    ExplainedCrashes(h, store.header, store.start, g, store.session.base, script, es[..m]);
    forall k, body: bytes | 0 <= k < |h| && h[k].map_.MayCrashTo(body) ensures CutTells(h[k].map_.header, body, g, script, es) {
      assert CutTells(h[k].map_.header, body, g, script, es[..m]);
      var n :| 0 <= n <= m && Tells(StateOf(h[k].map_.header, body, g).value.extents, script + [es[..m][..n]]);
      assert es[..m][..n] == es[..n];
    }
  }

  lemma Reopened(left: MapFile, store: Store, g: Geometry, script: seq<seq<Extent>>)
    requires Leaves(left, g, script)
    requires store.start == left.Body() && store.header == left.header.(clean := false)
    requires StateOf(left.header, left.Body(), g) == Ok(store.session.base)
    ensures SoundMap(store.header, store.start, g) && StateOf(store.header, store.start, g) == Ok(store.session.base)
    ensures Tells(store.session.base.extents, script)
  {
    hide SoundMap, StateOf, Tells;
    SameMap(left.header, false, left.Body(), g);
  }

  /** A map is created and goes through the sessions of the script. If all of them succeed the file reads, sector by
      sector, as the account of the script; if the storage fails in one of them, whatever a crash leaves reads as the
      account of the sessions before it and of some of its transitions, in order from the first. */
  method KeepMap(header: Header, image: ImageFile, script: seq<seq<Extent>>) returns (store: Option<Store>, done: bool, ghost sessions: nat)
    requires script != [] && header.sectorCount < TWO_32
    requires forall i :: 0 <= i < |script| ==> Within(script[i], header.sectorCount)
    ensures store.Some? ==> sessions < |script|
    ensures store.Some? ==>
              CrashTells(store.value.medium.history, Geometry(header.sectorSize, header.sectorCount), script[..sessions], script[sessions])
    ensures done ==> store.Some? && Leaves(store.value.medium.mapFile, Geometry(header.sectorSize, header.sectorCount), script)
  {
    hide Midway, Leaves, CrashTells, Tells, SoundMap, StateOf, Store.Valid, Store.Coherent, EmptyMap, Within, PartExplains;
    var g := Geometry(header.sectorSize, header.sectorCount);
    store, done, sessions := None, false, 0;
    var created := Create(header, image);
    if created.Err? {
      return;
    }
    var s := created.value;
    EmptyMapIsSound(s.header, g);
    BegunMidway(s, g);
    NothingTold();
    assert script[..0] == [];
    for i := 0 to |script|
      invariant fresh(s) && fresh(s.medium)
      invariant Midway(s, g, []) && !s.closed && !s.medium.failed && Tells(s.session.base.extents, script[..i])
    {
      sessions := i;
      assert script[..i] + [script[i]] == script[..i+1] && script[..|script|] == script;
      MidwaySound(s, g, []);
      var ok := RunSession(s, g, script[i]);
      if !ok {
        PartTells(s, g, script[..i], script[i]);
        store := Some(s);
        return;
      }
      ok := CloseSession(s, g, script[..i], script[i]);
      if !ok || i + 1 == |script| {
        store, done := Some(s), ok;
        return;
      }
      ghost var left := s.medium.mapFile;
      var opened_ := Open(s.medium, g);
      if opened_.Err? {
        return;
      }
      s := opened_.value;
      Reopened(left, s, g, script[..i+1]);
      BegunMidway(s, g);
    }
  }
}
