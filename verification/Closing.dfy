/** The end of a session (internal/recoverymap/store_close.go:11). Close flushes what is staged without the image sync a
    checkpoint makes, so it is here that the map can get ahead of the image. */
module Closing {
  import opened Prelude
  import opened Transitions
  import opened Extents
  import opened Applying
  import opened Replaying
  import CheckpointCodec
  import opened TornTails
  import opened Media
  import opened RecoveryMap
  import opened Sessions
  import opened WriteAhead
  import opened Persistence

  /** With no data waiting for the image, closing keeps every crash point safe. */
  method CloseAfter(p: RecoveryPersistence, clean: bool) returns (e: Option<StoreError>)
    requires p.Valid()
    modifies p.store`header, p.store`closed, p.store`durableExtents, p.store`pendingRecords, p.store`pendingBytes, p.store`session
    modifies p.medium`mapFile, p.medium`history, p.medium`failed, p.medium`faulty
    ensures old(p.DataDurable()) ==> AllCrashSafe(p.medium.history, p.store.start, p.store.session.First(), p.ledger)
    ensures old(p.medium.history) <= p.medium.history
    ensures p.store.closed && p.store.session.First() == old(p.store.session.First())
    ensures old(p.medium.failed) ==> p.medium.failed
    ensures (p.medium.failed ==> p.broken || p.medium.faulty) && (old(p.medium.faulty) ==> p.medium.faulty)
    ensures e.Some? && p.header.Valid() ==> p.medium.faulty
    ensures e.None? && !old(p.store.closed) && !old(p.medium.failed) ==>
              && Journalable(p.first, old(p.store.session.All()))
              && p.medium.mapFile == MapFile(old(p.store.header).(clean := clean), p.store.start + Journal(p.first, old(p.store.session.All())), [])
  {
    hide InOrder, Consistent, CrashSafe, Flat, Journal, Recorded, Grows;
    ghost var from, before, s, failed := p.medium.Now(), p.medium.history, p.store.session, p.medium.failed;
    e := p.store.Close(clean);
    RecordedGrows(before, p.medium.history, from, Flat(s.records));
    if p.DataDurable() {
      FlushIsSafe(before, p.medium.history, from, failed, p.store.start, s, p.ledger, p.pendingRecoveredBytes);
    }
  }

  lemma RecordedGrows(h0: seq<Disk>, h1: seq<Disk>, from: Disk, data: bytes)
    requires Recorded(h0, h1, from, data)
    ensures h0 <= h1
  {
  }

  // ----- with data pending

  /** Every byte of the call is durable, and nothing written since could put an older one in its place. */
  ghost predicate AtRest(image: ImageFile, calls: seq<Write>, c: nat)
    requires c < |calls|
  {
    forall b: nat :: calls[c].Covers(b) ==>
      && b in image.synced && From(calls, c, b, image.synced[b])
      && forall k :: 0 <= k < |image.unsynced| && image.unsynced[k].Covers(b) ==> From(calls, c, b, image.unsynced[k].data[b - image.unsynced[k].offset])
  }

  ghost predicate OutlivesCrashes(image: ImageFile, calls: seq<Write>, c: nat)
    requires c < |calls|
  {
    forall crashed: Contents :: image.MayCrashTo(crashed) ==> Held(crashed, calls, c)
  }

  lemma MayLoseUnsynced(image: ImageFile)
    ensures image.MayCrashTo(image.synced)
  {
  }

  lemma MayKeepOneByte(image: ImageFile, k: nat, b: nat)
    requires k < |image.unsynced| && image.unsynced[k].Covers(b)
    ensures image.MayCrashTo(image.synced[b := image.unsynced[k].data[b - image.unsynced[k].offset]])
  {
  }

  /** The data of a call is in every image a crash may leave if and only if it is at rest. */
  lemma OutlivesCrashesIff(image: ImageFile, calls: seq<Write>, c: nat)
    requires c < |calls|
    ensures OutlivesCrashes(image, calls, c) <==> AtRest(image, calls, c)
  {
    hide From;
    if OutlivesCrashes(image, calls, c) {
      MayLoseUnsynced(image);
      assert Held(image.synced, calls, c);
      forall b: nat, k | calls[c].Covers(b) && 0 <= k < |image.unsynced| && image.unsynced[k].Covers(b)
        ensures From(calls, c, b, image.unsynced[k].data[b - image.unsynced[k].offset])
      {
        var crashed := image.synced[b := image.unsynced[k].data[b - image.unsynced[k].offset]];
        MayKeepOneByte(image, k, b);
        assert Held(crashed, calls, c);
      }
    }
    if AtRest(image, calls, c) {
      forall crashed: Contents | image.MayCrashTo(crashed) ensures Held(crashed, calls, c) {
        forall b: nat | calls[c].Covers(b) ensures b in crashed && From(calls, c, b, crashed[b]) {
          assert b in image.synced;
        }
      }
    }
  }

  lemma {:induction false} ApplyAllAdvances(s: seq<Extent>, es: seq<Extent>, capacity: nat, lba: nat)
    requires Sound(s, capacity) && Within(es, capacity) && ApplyAll(s, es).Ok?
    ensures Advances(At(s, lba), At(ApplyAll(s, es).value, lba))
    decreases |es|
  {
    hide Apply;
    if es != [] {
      var t := Apply(s, es[0]).value;
      ApplyOkPermits(s, es[0]);
      ApplyRefinesOverride(s, es[0], capacity);
      assert At(t, lba) == if es[0].Covers(lba) then Some(es[0].mark) else At(s, lba);
      ApplyAllAdvances(t, es[1..], capacity, lba);
    }
  }

  lemma {:induction false} ClaimStands(s: seq<Extent>, es: seq<Extent>, i: nat, capacity: nat, lba: nat)
    requires Sound(s, capacity) && Within(es, capacity) && ApplyAll(s, es).Ok?
    requires i < |es| && es[i].Covers(lba) && es[i].mark.ClaimsData()
    ensures Claims(At(ApplyAll(s, es).value, lba))
    decreases i
  {
    hide Apply;
    var t := Apply(s, es[0]).value;
    ApplyOkPermits(s, es[0]);
    ApplyRefinesOverride(s, es[0], capacity);
    if i == 0 {
      assert At(t, lba) == Some(es[0].mark);
      ApplyAllAdvances(t, es[1..], capacity, lba);
    } else {
      ClaimStands(t, es[1..], i - 1, capacity, lba);
    }
  }

  /** The map a session leaves when all of it is journaled claims whatever one of its transitions claimed. */
  lemma JournaledClaims(header: Header, start: bytes, g: Geometry, s: Session, i: nat, lba: nat)
    requires SoundMap(header, start, g) && SessionOver(header, start, g, s)
    requires i < |s.All()| && s.All()[i].Covers(lba) && s.All()[i].mark.ClaimsData()
    ensures Journalable(s.First(), s.All())
    ensures StateOf(header, start + Journal(s.First(), s.All()), g).Ok?
    ensures Claims(At(StateOf(header, start + Journal(s.First(), s.All()), g).value.extents, lba))
  {
    hide StateOf, Journal, ApplyAll, Consistent, Settled, SoundMap;
    var f := Flushed(s);
    FlushedConsistent(s, start);
    FlushedFields(s);
    DurableReadsBack(header, start, g, f);
    OpensSound(header, start, g);
    WorkingIsApplied(s);
    ClaimStands(s.base.extents, s.All(), i, g.sectorCount, lba);
    AtSettled(f.durable, lba);
    SettlingKeepsClaim(At(f.durable, lba).value);
  }

  lemma FlushedFields(s: Session)
    ensures Flushed(s).written == s.All() && Flushed(s).base == s.base && Flushed(s).durable == s.extents
    ensures Flushed(s).First() == s.First()
  {
  }

  lemma OpensSound(header: Header, start: bytes, g: Geometry)
    requires SoundMap(header, start, g) && StateOf(header, start, g).Ok?
    ensures Sound(StateOf(header, start, g).value.extents, g.sectorCount)
  {
    OpensSettled(header, start, g);
  }

  lemma WorkingIsApplied(s: Session)
    requires Consistent(s)
    ensures ApplyAll(s.base.extents, s.All()) == Ok(s.extents)
  {
  }

  lemma SettlingKeepsClaim(m: Mark)
    ensures SettledMark(m).ClaimsData() == m.ClaimsData()
  {
  }

  lemma SameMap(header: Header, clean: bool, body: bytes, g: Geometry)
    ensures StateOf(header.(clean := clean), body, g) == StateOf(header, body, g)
    ensures SoundMap(header.(clean := clean), body, g) <==> SoundMap(header, body, g)
  {
    hide CheckpointLength, CheckpointCodec.Unmarshal, ReplayStream, JournalWithin, WholeRecords, Sound;
  }

  /** The transition at index i of the session is staged for call c and claims a sector. */
  ghost predicate ClaimPending(p: RecoveryPersistence, i: nat, c: nat, lba: nat)
    reads p, p.store
  {
    var s := p.store.session;
    && |s.written| <= i < |s.All()| && s.All()[i].Covers(lba) && s.All()[i].mark.ClaimsData()
    && i < |p.ledger.sources| && p.ledger.sources[i] == Some(c) && c < |p.ledger.calls|
  }

  /** Closing with recovered data pending, on storage that works: the map then reads as claiming the data of every
      pending call, while a crash keeps that data if and only if it was at rest before. Any byte of it that was not yet
      durable is missing from an image the crash may leave. */
  method CloseOverPending(p: RecoveryPersistence, clean: bool, g: Geometry, ghost i: nat, ghost c: nat, ghost lba: nat)
    returns (e: Option<StoreError>)
    requires p.Valid() && !p.store.closed && !p.medium.failed
    requires SoundMap(p.store.header, p.store.start, g) && SessionOver(p.store.header, p.store.start, g, p.store.session)
    requires ClaimPending(p, i, c, lba)
    modifies p.store`header, p.store`closed, p.store`durableExtents, p.store`pendingRecords, p.store`pendingBytes, p.store`session
    modifies p.medium`mapFile, p.medium`history, p.medium`failed, p.medium`faulty
    ensures p.medium.mapFile.MayCrashTo(p.medium.mapFile.Body())
    ensures e.None? ==> p.medium.mapFile.unsynced == [] && StateOf(p.medium.mapFile.header, p.medium.mapFile.Body(), g).Ok?
    ensures e.None? ==> Claims(At(StateOf(p.medium.mapFile.header, p.medium.mapFile.Body(), g).value.extents, lba))
    ensures OutlivesCrashes(p.medium.image, p.ledger.calls, c) <==> old(AtRest(p.medium.image, p.ledger.calls, c))
    ensures forall b: nat :: p.ledger.calls[c].Covers(b) && b !in p.medium.image.synced ==>
              exists image: Contents :: p.medium.image.MayCrashTo(image) && b !in image
  {
    hide InOrder, Consistent, CrashSafe, Journal, StateOf, SoundMap, SessionOver, AtRest, OutlivesCrashes, AllCrashSafe;
    ghost var header, s := p.store.header, p.store.session;
    JournaledClaims(header, p.store.start, g, s, i, lba);
    e := CloseAfter(p, clean);
    SameMap(header, clean, p.store.start + Journal(s.First(), s.All()), g);
    OutlivesCrashesIff(p.medium.image, p.ledger.calls, c);
    MayLoseUnsynced(p.medium.image);
    BodyOfSynced(p.medium.mapFile);
    WholeBodyRemains(p.medium.mapFile);
  }

  lemma WholeBodyRemains(f: MapFile)
    ensures f.MayCrashTo(f.Body())
  {
  }

  /** A persistence over a map that was just created. */
  ghost predicate JustCreated(p: RecoveryPersistence, g: Geometry)
    reads p, p.store, p.medium
  {
    && p.Valid() && !p.store.closed && !p.medium.failed
    && p.store.session == Begun(Checkpoint(0, [])) && p.store.start == EmptyMap()
    && p.ledger.calls == [] && p.ledger.sources == [] && p.pendingRecoveredBytes == 0
    && 0 < g.sectorSize && 0 < g.sectorCount < TWO_32
    && p.store.header.sectorSize == g.sectorSize && p.store.header.sectorCount == g.sectorCount
  }

  /** One sector is recovered, and no checkpoint is due: its claim is pending. */
  method RecoverOneSector(p: RecoveryPersistence, g: Geometry, data: bytes) returns (pending: bool)
    requires JustCreated(p, g) && |data| == g.sectorSize
    modifies p, p.store, p.medium
    ensures p.Valid() && p.medium == p.store.medium
    ensures pending ==> SoundMap(p.store.header, p.store.start, g) && SessionOver(p.store.header, p.store.start, g, p.store.session)
    ensures pending ==> !p.store.closed && !p.medium.failed && ClaimPending(p, 0, 0, 0)
    ensures pending ==> p.ledger.calls == [Write(0, data)] && p.medium.image.synced == old(p.medium.image.synced)
  {
    hide Consistent, StateOf, SoundMap, Apply, Carries, UntouchedOutside, RecoveryPersistence.Valid, Store.Valid, Store.Coherent, EmptyMap;
    InOneSession(p);
    EmptyMapIsSound(p.store.header, g);
    var good := Extent(0, 1, PlainMark(READ_UNVERIFIED, SINGLE_READ, 1));
    var e := p.PersistRecovered(data, 0, good);
    InOneSession(p);
    if e.Some? || p.pendingRecoveredBytes == 0 {
      return false;
    }
    FirstTransition(p.store.session, good, g.sectorCount);
    return true;
  }

  lemma InOneSession(p: RecoveryPersistence)
    requires p.Valid()
    ensures Consistent(p.store.session) && p.medium == p.store.medium
  {
  }

  lemma FirstTransition(s: Session, e: Extent, sectorCount: nat)
    requires s.written == [] && s.staged == [] + [e] && e.End() <= sectorCount
    ensures s.All() == [e] && Within(s.All(), sectorCount)
  {
  }

  lemma NothingBegun(s: Session, l: Ledger)
    requires s == Begun(Checkpoint(0, [])) && l == FreshLedger(s)
    ensures l.calls == [] && l.sources == []
  {
  }

  /** A session in which that happens: a map is created, one sector recovered, and the store closed. The map then claims
      the sector, and the image a crash leaves need not have a byte of it. */
  method CloseCanOutrunTheImage(header: Header, image: ImageFile, data: bytes) returns (store: Option<Store>)
    requires 0 < header.sectorCount < TWO_32 && 0 < |data| == header.sectorSize
    requires 0 !in image.synced
    ensures store.Some? ==> var (f, g) := (store.value.medium.mapFile, Geometry(header.sectorSize, header.sectorCount));
              && f.unsynced == [] && StateOf(f.header, f.Body(), g).Ok? && Claims(At(StateOf(f.header, f.Body(), g).value.extents, 0))
    ensures store.Some? ==> exists crashed: Contents :: store.value.medium.image.MayCrashTo(crashed) && 0 !in crashed
  {
    hide RecoveryPersistence.Valid, Store.Valid, Store.Coherent, StateOf, SoundMap, SessionOver, AtRest, OutlivesCrashes, EmptyMap, FreshLedger;
    store := None;
    var g := Geometry(header.sectorSize, header.sectorCount);
    var created := Create(header, image);
    if created.Err? {
      return;
    }
    var p := new RecoveryPersistence(created.value, false);
    NothingBegun(p.store.session, p.ledger);
    var pending := RecoverOneSector(p, g, data);
    if !pending {
      return;
    }
    var e := CloseOverPending(p, true, g, 0, 0, 0);
    assert p.ledger.calls[0].Covers(0);
    if e.None? {
      store := Some(p.store);
    }
  }
}
