/** A whole recovery job (internal/platform/recovery_run_linux.go, and finish in recovery_job_linux.go:101): a map is opened
    or created, the passes run, the image is synced and the store closed. */
module RecoveryJobs {
  import opened Prelude
  import opened Transitions
  import opened Extents
  import opened Applying
  import opened Replaying
  import opened TornTails
  import opened Media
  import opened RecoveryMap
  import opened Sessions
  import opened WriteAhead
  import opened Persistence
  import opened Closing
  import opened Runs
  import opened Devices
  import opened Passes
  import opened Accounting
  import opened Policies
  import opened RecoveryRun
  import opened TidyMaps

  /** A store over a sound map, as opening or creating it leaves it. */
  ghost predicate JustOpened(store: Store, g: Geometry)
    reads store, store.medium
  {
    && store.Valid() && store.Coherent() && !store.closed && !store.medium.failed
    && store.session == Begun(store.session.base)
    && SoundMap(store.header, store.start, g) && StateOf(store.header, store.start, g) == Ok(store.session.base)
  }

  lemma JustOpenedParts(store: Store, g: Geometry)
    requires JustOpened(store, g)
    ensures 0 < g.sectorSize && 0 < g.sectorCount && store.header.Valid() && CheckpointLength(store.start).Ok? && WholeRecords(JournalOf(store.start))
    ensures Sound(store.extents, g.sectorCount) && store.extents == store.session.base.extents
    ensures store.session.First() == store.session.base.last + 1
  {
    hide CheckpointLength;
    OpensSettled(store.header, store.start, g);
    BegunExtents(store.session);
  }

  lemma BegunExtents(s: Session)
    requires s == Begun(s.base)
    ensures s.extents == s.base.extents && s.First() == s.base.last + 1
  {
  }

  lemma NothingMarked(s: Session, l: Ledger, capacity: nat)
    requires l == FreshLedger(s) && s == Begun(s.base)
    ensures Harmless(l.marks, capacity) && l.calls == [] && l.recovered == []
  {
  }

  /** The policy of a job: that of its method, or the retry policy for the map's attempts. */
  method PolicyOf(kind: RecoveryMethod, retryUnresolved: bool, extents: seq<Extent>) returns (policy: Option<RecoveryPolicy>)
    ensures policy.Some? <==> PolicyForMethod(kind).Some?
    ensures policy.Some? ==> policy.value == if retryUnresolved then RetryPolicy(PolicyForMethod(kind).value, AttemptOffset(extents))
                                             else PolicyForMethod(kind).value
    ensures policy.Some? ==> policy.value.Valid() && policy.value.Rounds() <= PolicyForMethod(kind).value.Limit()
  {
    hide PolicyForMethod, RecoveryPolicy.Valid, RecoveryPolicy.Rounds, RecoveryPolicy.Limit;
    policy := PolicyForMethod(kind);
    if policy.None? {
      return;
    }
    BuiltInPolicies(kind);
    RetryRoundsWithinBudget(kind, AttemptOffset(extents));
    RetryPolicyIsValid(policy.value, AttemptOffset(extents));
    if retryUnresolved {
      var passes := policy.value.adaptive;
      var adaptive := new BlockPass[|passes|](i requires 0 <= i < |passes| => passes[i]);
      assert adaptive[..] == passes;
      var raised := RetryPolicyWithCurrentAttempts(policy.value, adaptive, extents);
      policy := Some(raised);
    }
  }

  /** What a crash at this point must leave: every new claim with its one read, and a tidy map where there was one. */
  ghost predicate Kept(disk: Disk, header: Header, start: bytes, g: Geometry, trace: seq<Read>)
    requires 0 < g.sectorSize && StateOf(header, start, g).Ok?
  {
    Survives(disk, header, start, g, trace) && (TidyMap(start) ==> LeavesTidy(disk, header, g))
  }

  lemma AllKept(h: seq<Disk>, header: Header, start: bytes, g: Geometry, first: nat, l: Ledger, a: Moment, b: Moment, limit: nat, live: bool)
    requires SoundMap(header, start, g) && StateOf(header, start, g).Ok? && 0 < g.sectorSize
    requires first == StateOf(header, start, g).value.last + 1 && AllCrashSafe(h, start, first, l)
    requires Progress(a, b, g.sectorSize, g.sectorCount, limit, live)
    requires a.calls == [] && a.recovered == [] && b.calls == l.calls && b.recovered == l.recovered && Harmless(l.marks, g.sectorCount)
    ensures forall k :: 0 <= k < |h| ==> Kept(h[k], header, start, g, Since(a, b))
  {
    hide StateOf, SoundMap, Survives, TidyMap, LeavesTidy, AllCrashSafe, Progress, Harmless;
    SoundMapParts(header, start, g);
    AllSurvive(h, header, start, g, first, l, a, b, g.sectorCount, limit, live);
    AllLeaveTidy(h, start, header, g, first, l, a, b, g.sectorSize, limit, live);
  }

  /** The map file is sound and reads as these extents, queued reads being forgotten. */
  ghost predicate ReadsAsLeft(f: MapFile, extents: seq<Extent>, g: Geometry) {
    && f.unsynced == [] && SoundMap(f.header, f.Body(), g) && StateOf(f.header, f.Body(), g).Ok?
    && SameView(StateOf(f.header, f.Body(), g).value.extents, Settled(extents))
  }

  lemma AllWithin(es: seq<Extent>, sources: seq<Option<nat>>, l: Ledger, capacity: nat)
    requires |es| == |sources| && Accounted(es, sources, l) && AllKnown(l, capacity)
    ensures Within(es, capacity)
  {
    forall i | 0 <= i < |es| ensures es[i].End() <= capacity {
      if sources[i].Some? {
        assert l.recovered[sources[i].value] in l.recovered;
      }
    }
  }

  lemma PersistedParts(p: RecoveryPersistence)
    requires p.Valid()
    ensures p.store.Valid() && p.medium == p.store.medium && p.store.session.base == p.base
    ensures p.store.header == p.header && p.store.closed == p.shut
    ensures Consistent(p.store.session) && p.store.session.extents == p.store.extents
    ensures |p.store.session.All()| == |p.ledger.sources| && Accounted(p.store.session.All(), p.ledger.sources, p.ledger)
  {
    hide Consistent, Accounted;
  }

  /** What a run has written is a session over the map it was opened with. */
  lemma WholeSessionOver(p: RecoveryPersistence, header: Header, g: Geometry, a: Moment, b: Moment, limit: nat, live: bool)
    requires p.Valid() && StateOf(header, p.store.start, g) == Ok(p.base)
    requires Progress(a, b, g.sectorSize, g.sectorCount, limit, live) && Harmless(p.ledger.marks, g.sectorCount)
    requires a.recovered == [] && b.recovered == p.ledger.recovered
    ensures SessionOver(header, p.store.start, g, p.store.session) && p.store.session.extents == p.store.extents
  {
    hide StateOf, Progress, Harmless, Consistent, Accounted, AllKnown, RecoveryPersistence.Valid;
    PersistedParts(p);
    RunIsKnown(a, b, p.ledger, g.sectorSize, g.sectorCount, limit, live);
    AllWithin(p.store.session.All(), p.ledger.sources, p.ledger, g.sectorCount);
  }

  lemma WholeJournalReads(f: MapFile, header: Header, start: bytes, g: Geometry, s: Session, clean: bool)
    requires SoundMap(header, start, g) && SessionOver(header, start, g, s) && Journalable(s.First(), s.All())
    requires f == MapFile(header.(clean := clean), start + Journal(s.First(), s.All()), [])
    ensures ReadsAsLeft(f, s.extents, g)
  {
    hide Consistent, Journal, SoundMap, StateOf, Settled, Journalable;
    var all := Flushed(s);
    FlushedConsistent(s, start);
    FlushedFields(s);
    DurableReadsBack(header, start, g, all);
    SessionKeepsMapSound(header, start, g, all);
    BodyOfSynced(f);
    SameMap(header, clean, f.Body(), g);
  }

  /** The run of a job (recovery_run_linux.go:31-38). */
  method RunMethod(p: RecoveryPersistence, d: Device, g: Geometry, kind: RecoveryMethod, retryUnresolved: bool)
    returns (e: Option<RunError>, flushError: Option<PersistError>, ghost limit: nat)
    requires Ready(p, g.sectorCount) && 0 < g.sectorSize && 0 < g.sectorCount && p.pendingRecoveredBytes == 0
    requires p.mayGiveUp == (PolicyForMethod(kind).Some? && PolicyForMethod(kind).value.finalizeUnresolved)
    modifies p, p.store, p.medium, d
    ensures Ready(p, g.sectorCount) && (flushError != Some(ImageSyncFailed) ==> p.DataDurable())
    ensures Progress(old(Now(p, d)), Now(p, d), g.sectorSize, g.sectorCount, limit, e.None?)
    ensures e == Some(BadPolicy) <==> PolicyForMethod(kind).None?
    ensures PolicyForMethod(kind).Some? && old(Canonical(p.store.extents)) ==> forall x: nat :: old(At(p.store.extents, x)).Some? ==>
              Count(d.trace[|old(d.trace)|..], x) <= PolicyForMethod(kind).value.Limit()
    ensures e.None? && retryUnresolved ==> Retried(old(p.store.extents), p.store.extents, g.sectorCount, kind)
    ensures e.None? ==> Covered(p.store.extents, g.sectorCount)
    ensures e.None? && PolicyForMethod(kind).value.finalizeUnresolved ==> NoneIn(p.store.extents, Deferred)
    ensures e == Some(BadPolicy) || Excused(e, p, d)
    ensures flushError.Some? ==> p.shut || p.store.medium.faulty
  {
    hide Progress, RecoveryPersistence.Valid, Store.Valid, Store.Coherent, Sound, Harmless, Covered, NoneIn, At, GivenUpLate, ReadPerPass,
         RecoveryPolicy.Rounds, RecoveryPolicy.Limit, RecoveryPolicy.Valid, PolicyForMethod, Canonical, Retried, Excused,
         RecoveryPersistence.Failing, EdgesTried, BeginsWith;
    ghost var a := Now(p, d);
    var policy := PolicyOf(kind, retryUnresolved, p.store.extents);
    if policy.None? {
      limit := 1;
      Unmoved(a, g.sectorSize, g.sectorCount, limit, false);
      NoPolicy(a);
      return Some(BadPolicy), None, limit;
    }
    limit := policy.value.Limit();
    BuiltInFinal(kind, retryUnresolved, p.store.extents);
    SoundParts(p.store.extents, g.sectorCount);
    ghost var acquired;
    e, flushError, acquired := RunPassBasedRecovery(p, d, g.sectorSize, g.sectorCount, policy.value);
    PassesRead(a, d.trace, policy.value);
    if e.None? && retryUnresolved {
      RetryTriesAgain(kind, a.extents, p.store.extents, g.sectorCount);
    }
  }

  lemma NoPolicy(a: Moment)
    ensures forall x: nat :: Count(a.trace[|a.trace|..], x) == 0
  {
    assert a.trace[|a.trace|..] == [];
  }

  lemma BuiltInFinal(kind: RecoveryMethod, retryUnresolved: bool, extents: seq<Extent>)
    requires PolicyForMethod(kind).Some?
    ensures var p := PolicyForMethod(kind).value;
            var r := RetryPolicy(p, AttemptOffset(extents));
            p.fast.enabled && r.fast.enabled && r.finalizeUnresolved == p.finalizeUnresolved
  {
    hide AttemptOffset;
  }

  ghost predicate ClaimsStay(s: seq<Extent>, t: seq<Extent>) {
    forall x: nat :: Claims(At(s, x)) ==> At(t, x) == At(s, x)
  }

  lemma AllClaimsStay(a: Moment, b: Moment, sectorSize: nat, capacity: nat, limit: nat, live: bool)
    requires Progress(a, b, sectorSize, capacity, limit, live)
    ensures ClaimsStay(a.extents, b.extents)
  {
    hide Progress, At;
    forall x: nat | Claims(At(a.extents, x)) ensures At(b.extents, x) == At(a.extents, x) {
      ClaimedSectorsUntouched(a, b, sectorSize, capacity, limit, live, x);
    }
  }

  /** Why the run of a job on an open store may end in an error: an unknown method; a canceled context or a read that ends
      a run; storage that failed; sequence numbers that are used up; or a block too large to wait for a checkpoint. */
  ghost predicate Accountable(e: RunError, kind: RecoveryMethod, trace: seq<Read>, stopped: bool, faulty: bool, exhausted: bool) {
    var last := if trace == [] then None else trace[|trace|-1].error;
    match e
    case BadPolicy => PolicyForMethod(kind).None?
    case BadGeometry => false
    case Canceled => stopped || last == Some(StopRequested)
    case FatalRead(cause) => last == Some(cause) && cause in {Permission, NotExist, SourceLost}
    case PersistFailed(PayloadTooBig) => trace != [] && |trace[|trace|-1].buffer| > MAX_PENDING_BYTES
    case PersistFailed(MapFailed(SequenceExhausted)) => exhausted
    case PersistFailed(_) => faulty
  }

  lemma ExcusedIsAccountable(e: Option<RunError>, kind: RecoveryMethod, p: RecoveryPersistence, d: Device)
    requires e.Some? && !p.shut && (e == Some(BadPolicy) <==> PolicyForMethod(kind).None?)
    requires e == Some(BadPolicy) || Excused(e, p, d)
    ensures Accountable(e.value, kind, d.trace, d.stopped, p.store.medium.faulty, p.store.nextSequence == 0)
  {
    hide PolicyForMethod;
  }

  /** The job on an opened store. `closing` counts the crash points before the store is closed. Whatever the device did,
      at each of them what the map newly claims was delivered by exactly one full read and is in the image; and at the
      later ones too, unless the last sync of the image failed; tidy maps stay tidy. A job over a coalesced list reads no
      sector that was already covered more often than the largest limit of its method, whatever is retried; a retry that
      ends without error has tried again all that could be retried. `done` says that the run, its flush and the sync of the
      image succeeded: the image then waits for nothing, and the header of a map that was closed is clean just for such
      a job and for one that was cancelled. */
  method RunJob(store: Store, d: Device, g: Geometry, kind: RecoveryMethod, retryUnresolved: bool)
    returns (e: Option<RunError>, flushError: Option<PersistError>, done: bool, closeError: Option<StoreError>, ghost closing: nat)
    requires JustOpened(store, g)
    modifies store, store.medium, d
    ensures store.closed && old(d.trace) <= d.trace && closing <= |store.medium.history|
    ensures StateOf(old(store.header), store.start, g).Ok? && 0 < g.sectorSize
    ensures forall k :: 0 <= k < |store.medium.history| && (k < closing || flushError != Some(ImageSyncFailed)) ==>
              Kept(store.medium.history[k], old(store.header), store.start, g, d.trace[|old(d.trace)|..])
    ensures PolicyForMethod(kind).Some? && old(Canonical(store.extents)) ==> forall x: nat :: old(At(store.extents, x)).Some? ==>
              Count(d.trace[|old(d.trace)|..], x) <= PolicyForMethod(kind).value.Limit()
    ensures done ==> e.None? && flushError.None? && store.medium.image.unsynced == []
    ensures e.Some? ==> Accountable(e.value, kind, d.trace, d.stopped, store.medium.faulty, store.nextSequence == 0)
    ensures !store.medium.faulty ==> flushError.None? && closeError.None? && !store.medium.failed && (e.None? ==> done)
    ensures e.None? && retryUnresolved ==> Retried(old(store.extents), store.extents, g.sectorCount, kind)
    ensures e.None? ==> Covered(store.extents, g.sectorCount)
    ensures ClaimsStay(old(store.extents), store.extents)
    ensures closeError.None? && !store.medium.failed ==>
              store.medium.mapFile.header == old(store.header).(clean := done || e == Some(Canceled))
    ensures closeError.None? && !store.medium.failed ==> ReadsAsLeft(store.medium.mapFile, store.extents, g)
  {
    hide StateOf, Progress, Kept, RecoveryPersistence.Valid, Store.Valid, Store.Coherent, Sound, Harmless, Covered, NoneIn, SoundMap,
         AllCrashSafe, At, RecoveryPolicy.Limit, PolicyForMethod, Canonical, FreshLedger, Retried, ReadsAsLeft, ClaimsStay, Count,
         Excused, Accountable, RecoveryPersistence.Failing;
    JustOpenedParts(store, g);
    ghost var header := store.header;
    var p := new RecoveryPersistence(store, PolicyForMethod(kind).Some? && PolicyForMethod(kind).value.finalizeUnresolved);
    NothingMarked(store.session, p.ledger, g.sectorCount);
    ghost var a, limit := Now(p, d), 0;
    e, flushError, limit := RunMethod(p, d, g, kind, retryUnresolved);
    ghost var b := Now(p, d);
    done := false;
    if e.None? && flushError.None? {
      done := p.SyncOutput();
    }
    if e.Some? {
      ExcusedIsAccountable(e, kind, p, d);
    }
    ProgressTrace(a, b, g.sectorSize, g.sectorCount, limit, e.None?);
    AllClaimsStay(a, b, g.sectorSize, g.sectorCount, limit, e.None?);
    ghost var faulty := store.medium.faulty;
    closeError, closing := FinishJob(p, g, done || e == Some(Canceled), flushError != Some(ImageSyncFailed), header, a, b, limit, e.None?);
    if e.Some? {
      StillAccountable(e.value, kind, d.trace, d.stopped, faulty, store.nextSequence == 0, store.medium.faulty);
    }
  }

  lemma StillAccountable(e: RunError, kind: RecoveryMethod, trace: seq<Read>, stopped: bool, faulty: bool, exhausted: bool, later: bool)
    requires Accountable(e, kind, trace, stopped, faulty, exhausted) && (faulty ==> later)
    ensures Accountable(e, kind, trace, stopped, later, exhausted)
  {
    hide PolicyForMethod;
  }

  /** The end of a job (finish, recovery_job_linux.go:101). */
  method FinishJob(p: RecoveryPersistence, g: Geometry, clean: bool, ghost durable: bool, ghost header: Header, ghost a: Moment, ghost b: Moment,
                   ghost limit: nat, ghost live: bool)
    returns (closeError: Option<StoreError>, ghost closing: nat)
    requires p.Valid() && !p.shut && !p.broken && p.header.Valid() && (durable ==> p.DataDurable()) && 0 < g.sectorSize
    requires header == p.header && SoundMap(header, p.store.start, g) && StateOf(header, p.store.start, g) == Ok(p.base)
    requires Progress(a, b, g.sectorSize, g.sectorCount, limit, live) && Harmless(p.ledger.marks, g.sectorCount)
    requires a.calls == [] && a.recovered == [] && b.calls == p.ledger.calls && b.recovered == p.ledger.recovered
    modifies p.store`header, p.store`closed, p.store`durableExtents, p.store`pendingRecords, p.store`pendingBytes, p.store`session
    modifies p.medium`mapFile, p.medium`history, p.medium`failed, p.medium`faulty
    ensures p.store.closed && closing <= |p.medium.history|
    ensures (old(p.medium.faulty) || closeError.Some? || p.medium.failed ==> p.medium.faulty)
    ensures forall k :: 0 <= k < |p.medium.history| && (k < closing || durable) ==> Kept(p.medium.history[k], header, p.store.start, g, Since(a, b))
    ensures closeError.None? && !p.medium.failed ==> p.medium.mapFile.header == header.(clean := clean) && ReadsAsLeft(p.medium.mapFile, p.store.extents, g)
  {
    hide StateOf, Progress, Kept, Harmless, SoundMap, AllCrashSafe, InOrder, Consistent, Journal, Since;
    AllKept(p.medium.history, header, p.store.start, g, p.first, p.ledger, a, b, limit, live);
    closing := |p.medium.history|;
    ghost var s := p.store.session;
    WholeSessionOver(p, header, g, a, b, limit, live);
    closeError := CloseAfter(p, clean);
    if durable {
      AllKept(p.medium.history, header, p.store.start, g, p.first, p.ledger, a, b, limit, live);
    }
    if closeError.None? && !p.medium.failed {
      WholeJournalReads(p.medium.mapFile, header, p.store.start, g, s, clean);
    }
  }

  /** What a closed job has made of a map that was `before`: it is sound, its header is clean just for a job that was done
      or canceled, no claim is withdrawn, and a job that ran to its end covers the medium and has tried again what it was
      asked to. */
  ghost predicate JobLeaves(f: MapFile, header: Header, before: seq<Extent>, g: Geometry, kind: RecoveryMethod, retryUnresolved: bool,
                            e: Option<RunError>, done: bool)
  {
    && f.header == header.(clean := done || e == Some(Canceled)) && f.unsynced == []
    && SoundMap(f.header, f.Body(), g) && StateOf(f.header, f.Body(), g).Ok?
    && var after := StateOf(f.header, f.Body(), g).value.extents;
       && ClaimsStay(before, after)
       && (e.None? ==> Covered(after, g.sectorCount))
       && (e.None? && retryUnresolved ==> Retried(before, after, g.sectorCount, kind))
  }

  lemma JobLeft(f: MapFile, header: Header, before: seq<Extent>, extents: seq<Extent>, g: Geometry, kind: RecoveryMethod,
                retryUnresolved: bool, e: Option<RunError>, done: bool)
    requires f.header == header.(clean := done || e == Some(Canceled)) && ReadsAsLeft(f, extents, g) && ClaimsStay(before, extents)
    requires e.None? ==> Covered(extents, g.sectorCount)
    requires e.None? && retryUnresolved ==> Retried(before, extents, g.sectorCount, kind)
    ensures JobLeaves(f, header, before, g, kind, retryUnresolved, e, done)
  {
    hide SoundMap, StateOf, Settled, At;
    var after := StateOf(f.header, f.Body(), g).value.extents;
    forall x: nat ensures At(after, x) == SettledView(At(extents, x)) {
      AtSettled(extents, x);
    }
    forall x: nat | Claims(At(before, x)) ensures At(after, x) == At(before, x) {
      assert At(extents, x) == At(before, x);
    }
    if e.None? && retryUnresolved {
      forall x: nat | x < g.sectorCount && Retryable(At(before, x))
        ensures Claims(At(after, x)) || Min(Attempts(At(before, x)) + RetryEffort(kind), 0xFFFF) <= Attempts(At(after, x))
      {
        assert Claims(At(extents, x)) || Min(Attempts(At(before, x)) + RetryEffort(kind), 0xFFFF) <= Attempts(At(extents, x));
      }
    }
  }

  lemma PassesRead(a: Moment, trace: seq<Read>, policy: RecoveryPolicy)
    requires ReadPerPass(a, trace, policy)
    ensures |a.trace| <= |trace|
    ensures Canonical(a.extents) ==> forall x: nat :: At(a.extents, x).Some? ==> Count(trace[|a.trace|..], x) <= policy.Rounds()
  {
    hide Canonical, At, Count, RecoveryPolicy.Rounds;
  }

  lemma KeptSame(disk: Disk, header: Header, clean: bool, start: bytes, g: Geometry, trace: seq<Read>)
    requires 0 < g.sectorSize && StateOf(header.(clean := clean), start, g).Ok?
    requires Kept(disk, header.(clean := clean), start, g, trace)
    ensures StateOf(header, start, g).Ok? && Kept(disk, header, start, g, trace)
  {
    hide StateOf, DeliveredBy, TidyMap;
    SameMap(header, clean, start, g);
    forall body: bytes, image: Contents, lba: nat |
      disk.map_.MayCrashTo(body) && disk.image.MayCrashTo(image) && StateOf(header, body, g).Ok?
      && Claims(At(StateOf(header, body, g).value.extents, lba)) && !Claims(At(StateOf(header, start, g).value.extents, lba))
      ensures DeliveredBy(image, trace, lba, g.sectorSize)
    {
      SameMap(header, clean, body, g);
    }
    forall body: bytes | TidyMap(start) && disk.map_.MayCrashTo(body) && StateOf(header, body, g).Ok? ensures TidyMap(body) {
      SameMap(header, clean, body, g);
    }
  }

  /** A job over an existing map. When the map is as jobs leave maps, it is left so, and no sector it covered is read
      more often than the largest limit of the method: an explicit retry stays within one policy budget. */
  method Recover(medium: Medium, d: Device, g: Geometry, kind: RecoveryMethod, retryUnresolved: bool)
    returns (opened_: Option<StoreError>, e: Option<RunError>, flushError: Option<PersistError>, done: bool,
             closeError: Option<StoreError>, ghost closing: nat)
    requires SoundMap(medium.mapFile.header, medium.mapFile.Body(), g)
    modifies medium, d
    ensures opened_.None? ==> StateOf(old(medium.mapFile.header), old(medium.mapFile.Body()), g).Ok? && old(d.trace) <= d.trace
    ensures opened_.None? ==> closing <= |medium.history|
    ensures opened_.None? ==> forall k :: 0 <= k < |medium.history| && (k < closing || flushError != Some(ImageSyncFailed)) ==>
              Kept(medium.history[k], old(medium.mapFile.header), old(medium.mapFile.Body()), g, d.trace[|old(d.trace)|..])
    ensures opened_.None? && TidyMap(old(medium.mapFile.Body())) && PolicyForMethod(kind).Some? ==> forall x: nat ::
              At(StateOf(old(medium.mapFile.header), old(medium.mapFile.Body()), g).value.extents, x).Some? ==>
                Count(d.trace[|old(d.trace)|..], x) <= PolicyForMethod(kind).value.Limit()
    ensures opened_.None? && done ==> e.None? && flushError.None? && medium.image.unsynced == []
    ensures opened_.None? && e.Some? ==> Accountable(e.value, kind, d.trace, d.stopped, medium.faulty, true)
    ensures opened_.None? && !medium.faulty ==> flushError.None? && closeError.None? && !medium.failed && (e.None? ==> done)
    ensures opened_.None? && closeError.None? && !medium.failed ==>
              JobLeaves(medium.mapFile, old(medium.mapFile.header), StateOf(old(medium.mapFile.header), old(medium.mapFile.Body()), g).value.extents, g,
                        kind, retryUnresolved, e, done)
  {
    hide StateOf, Kept, Store.Valid, Store.Coherent, SoundMap, At, PolicyForMethod, RecoveryPolicy.Limit, Canonical, Count, TidyMap, Retried,
         Covered, ClaimsStay, ReadsAsLeft, JobLeaves, Accountable;
    ghost var header, start, trace := medium.mapFile.header, medium.mapFile.Body(), d.trace;
    e, flushError, done, closeError, closing := None, None, false, None, 0;
    var opening := Open(medium, g);
    if opening.Err? {
      opened_ := Some(opening.error);
      return;
    }
    opened_ := None;
    SameMap(header, false, start, g);
    BegunStore(opening.value);
    e, flushError, done, closeError, closing := RunJob(opening.value, d, g, kind, retryUnresolved);
    SoundGeometry(header, start, g);
    if e.Some? {
      PerhapsExhausted(e.value, kind, d.trace, d.stopped, medium.faulty, opening.value.nextSequence == 0);
    }
    if closeError.None? && !medium.failed {
      JobLeft(medium.mapFile, header, StateOf(header, start, g).value.extents, opening.value.extents, g, kind, retryUnresolved, e, done);
    }
    if TidyMap(start) {
      TidyOpensCanonical(header, start, g);
    }
    forall k | 0 <= k < |medium.history| && (k < closing || flushError != Some(ImageSyncFailed))
      ensures Kept(medium.history[k], header, start, g, d.trace[|trace|..])
    {
      KeptSame(medium.history[k], header, false, start, g, d.trace[|trace|..]);
    }
  }

  lemma PerhapsExhausted(e: RunError, kind: RecoveryMethod, trace: seq<Read>, stopped: bool, faulty: bool, exhausted: bool)
    requires Accountable(e, kind, trace, stopped, faulty, exhausted)
    ensures Accountable(e, kind, trace, stopped, faulty, true)
  {
    hide PolicyForMethod;
  }

  lemma SoundGeometry(header: Header, start: bytes, g: Geometry)
    requires SoundMap(header, start, g)
    ensures 0 < g.sectorSize
  {
  }

  lemma BegunStore(store: Store)
    requires store.Valid() && store.session == Begun(store.session.base)
    ensures store.extents == store.session.base.extents
  {
    hide Consistent;
  }

  /** A job over a map that is created for it: every claim found after a crash is new, and the map left is tidy. */
  method RecoverAnew(header: Header, image: ImageFile, d: Device, kind: RecoveryMethod)
    returns (store: Result<Store, StoreError>, e: Option<RunError>, flushError: Option<PersistError>, done: bool,
             closeError: Option<StoreError>, ghost closing: nat)
    requires header.sectorCount < TWO_32
    modifies d
    ensures store.Ok? ==> header.Valid() && old(d.trace) <= d.trace && closing <= |store.value.medium.history|
    ensures store.Ok? ==> var g := Geometry(header.sectorSize, header.sectorCount);
              && StateOf(header, EmptyMap(), g) == Ok(Checkpoint(0, []))
              && TidyMap(EmptyMap())
              && forall k :: 0 <= k < |store.value.medium.history| && (k < closing || flushError != Some(ImageSyncFailed)) ==>
                   Kept(store.value.medium.history[k], header, EmptyMap(), g, d.trace[|old(d.trace)|..])
    ensures store.Ok? && done ==> e.None? && flushError.None? && store.value.medium.image.unsynced == []
    ensures store.Ok? && e.Some? ==>
              Accountable(e.value, kind, d.trace, d.stopped, store.value.medium.faulty, store.value.nextSequence == 0)
    ensures store.Ok? && !store.value.medium.faulty ==>
              flushError.None? && closeError.None? && !store.value.medium.failed && (e.None? ==> done)
    ensures store.Ok? && closeError.None? && !store.value.medium.failed ==>
              JobLeaves(store.value.medium.mapFile, header, [], Geometry(header.sectorSize, header.sectorCount), kind, false, e, done)
  {
    hide StateOf, Kept, Store.Valid, Store.Coherent, SoundMap, At, PolicyForMethod, RecoveryPolicy.Limit, Canonical, Count, EmptyMap,
         TidyMap, Retried, Covered, ClaimsStay, ReadsAsLeft, JobLeaves, Accountable;
    e, flushError, done, closeError, closing := None, None, false, None, 0;
    store := Create(header, image);
    if store.Err? {
      return;
    }
    ghost var trace, g := d.trace, Geometry(header.sectorSize, header.sectorCount);
    EmptyMapIsSound(header, g);
    SameMap(header, false, EmptyMap(), g);
    EmptyMapIsTidy(header, g);
    BegunStore(store.value);
    e, flushError, done, closeError, closing := RunJob(store.value, d, Geometry(header.sectorSize, header.sectorCount), kind, false);
    if closeError.None? && !store.value.medium.failed {
      JobLeft(store.value.medium.mapFile, header, [], store.value.extents, g, kind, false, e, done);
    }
    forall k | 0 <= k < |store.value.medium.history| && (k < closing || flushError != Some(ImageSyncFailed))
      ensures Kept(store.value.medium.history[k], header, EmptyMap(), g, d.trace[|trace|..])
    {
      KeptSame(store.value.medium.history[k], header, false, EmptyMap(), g, d.trace[|trace|..]);
    }
  }
}
