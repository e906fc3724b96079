/** A whole recovery run (internal/platform/recovery_strategy.go): the passes in order with checkpoints between them,
    against any device, and what can be said at its end and after a crash in it. */
module RecoveryRun {
  import opened Prelude
  import opened Transitions
  import opened Extents
  import opened Applying
  import opened Replaying
  import opened Media
  import opened RecoveryMap
  import opened Sessions
  import opened WriteAhead
  import opened Persistence
  import opened CrashRecovery
  import opened Runs
  import opened Devices
  import opened Passes
  import opened RetryPasses
  import opened Accounting
  import opened Policies

  lemma Unmoved(a: Moment, sectorSize: nat, capacity: nat, limit: nat, live: bool)
    requires 0 < sectorSize && |a.calls| == |a.recovered|
    ensures Progress(a, a, sectorSize, capacity, limit, live)
  {
    hide Progress;
    NoProgress(a, sectorSize, capacity, limit);
    ProgressWeakens(a, a, sectorSize, capacity, limit, live);
  }

  lemma ProgressTrace(a: Moment, b: Moment, sectorSize: nat, capacity: nat, limit: nat, live: bool)
    requires Progress(a, b, sectorSize, capacity, limit, live)
    ensures a.trace <= b.trace
  {
  }

  // ----- how often a sector is tried before it is given up

  /** One more attempt for whatever is below the limit of an enabled pass. */
  function OneMore(attempts: nat, pass: BlockPass): nat {
    if pass.enabled && attempts < pass.attemptsLimit then attempts + 1 else attempts
  }

  /** The attempts behind a sector that block passes have not recovered, at least. */
  function Least(attempts: nat, passes: seq<BlockPass>): nat {
    if passes == [] then attempts else OneMore(Least(attempts, passes[..|passes|-1]), passes[|passes|-1])
  }

  /** A sector that could be retried is recovered, or as many attempts as this have been made. */
  predicate SectorTried(m: Option<Mark>, m': Option<Mark>, passes: seq<BlockPass>) {
    Retryable(m) ==> Claims(m') || (Retryable(m') && Least(Attempts(m), passes) <= Attempts(m'))
  }

  ghost predicate Tried(s: seq<Extent>, t: seq<Extent>, passes: seq<BlockPass>) {
    forall x: nat :: SectorTried(At(s, x), At(t, x), passes)
  }

  lemma NotTriedYet(s: seq<Extent>)
    ensures Tried(s, s, [])
  {
  }

  lemma DisabledTries(s: seq<Extent>, t: seq<Extent>, passes: seq<BlockPass>, i: nat)
    requires i < |passes| && !passes[i].enabled && Tried(s, t, passes[..i])
    ensures Tried(s, t, passes[..i+1])
  {
    assert passes[..i+1][..i] == passes[..i];
    forall x: nat ensures SectorTried(At(s, x), At(t, x), passes[..i+1]) {
      assert SectorTried(At(s, x), At(t, x), passes[..i]);
    }
  }

  lemma RetryableStays(b: Moment, c: Moment, x: nat, sectorSize: nat, capacity: nat, limit: nat, live: bool)
    requires Progress(b, c, sectorSize, capacity, limit, live) && ValidSet(c.extents) && Retryable(At(b.extents, x))
    ensures Claims(At(c.extents, x)) || Retryable(At(c.extents, x))
    ensures Attempts(At(b.extents, x)) <= Attempts(At(c.extents, x))
  {
    hide Progress;
    MarkOfProgress(b, c, x, sectorSize, capacity, limit, live);
    if At(c.extents, x).Some? {
      MarkValid(c.extents, x);
    }
  }

  lemma TriedStays(s: seq<Extent>, b: Moment, c: Moment, passes: seq<BlockPass>, sectorSize: nat, capacity: nat, limit: nat, live: bool)
    requires Progress(b, c, sectorSize, capacity, limit, live) && ValidSet(c.extents) && Tried(s, b.extents, passes)
    ensures Tried(s, c.extents, passes)
  {
    hide Progress, Least, ValidSet;
    forall x: nat ensures SectorTried(At(s, x), At(c.extents, x), passes) {
      assert SectorTried(At(s, x), At(b.extents, x), passes);
      MarkOfProgress(b, c, x, sectorSize, capacity, limit, live);
      if Retryable(At(b.extents, x)) {
        RetryableStays(b, c, x, sectorSize, capacity, limit, live);
      }
    }
  }

  lemma AttendedTries(s: seq<Extent>, b: Moment, c: Moment, passes: seq<BlockPass>, i: nat, sectorSize: nat, capacity: nat, limit: nat)
    requires i < |passes| && passes[i].enabled && ValidSet(c.extents)
    requires Progress(b, c, sectorSize, capacity, limit, true) && Tried(s, b.extents, passes[..i])
    requires Attended(b.extents, c.extents, passes[i].attemptsLimit)
    ensures Tried(s, c.extents, passes[..i+1])
  {
    hide Progress, ValidSet;
    assert passes[..i+1][..i] == passes[..i];
    forall x: nat ensures SectorTried(At(s, x), At(c.extents, x), passes[..i+1]) {
      assert SectorTried(At(s, x), At(b.extents, x), passes[..i]);
      assert SectorAttended(At(b.extents, x), At(c.extents, x), passes[i].attemptsLimit);
      MarkOfProgress(b, c, x, sectorSize, capacity, limit, true);
      if Retryable(At(b.extents, x)) {
        RetryableStays(b, c, x, sectorSize, capacity, limit, true);
      }
    }
  }

  // ----- how often a sector is read

  /** From a coalesced list, no sector has been read more than n times. */
  ghost predicate ReadAtMost(a: Moment, trace: seq<Read>, n: nat) {
    |a.trace| <= |trace| && (Canonical(a.extents) ==> forall x: nat :: Count(trace[|a.trace|..], x) <= n)
  }

  /** From a coalesced list, each sector has been read at most once by the fast pass, if the map did not cover it, and
      at most once by each pass behind it. */
  ghost predicate ReadPerPass(a: Moment, trace: seq<Read>, policy: RecoveryPolicy) {
    && |a.trace| <= |trace|
    && (Canonical(a.extents) ==> forall x: nat ::
          Count(trace[|a.trace|..], x) <= policy.Rounds() + if policy.fast.enabled && At(a.extents, x).None? then 1 else 0)
  }

  lemma NeverRead(a: Moment, n: nat)
    ensures ReadAtMost(a, a.trace, n)
  {
    assert a.trace[|a.trace|..] == [];
  }

  lemma ReadMore(a: Moment, trace: seq<Read>, n: nat, more: nat)
    requires ReadAtMost(a, trace, n) && n <= more
    ensures ReadAtMost(a, trace, more)
  {
    hide Canonical, Count;
  }

  lemma OneMorePass(a: Moment, b: Moment, c: Moment, n: nat, sectorSize: nat, capacity: nat, limit: nat)
    requires Progress(a, b, sectorSize, capacity, limit, true) && ReadAtMost(a, b.trace, n)
    requires b.trace <= c.trace && (Canonical(b.extents) ==> ReadOnce(b, c))
    ensures ReadAtMost(a, c.trace, n + 1)
  {
    hide SectorProgress, CallsProgress, Fulls, Aligned, Canonical, Count;
    assert c.trace[|a.trace|..] == Since(a, b) + Since(b, c);
    if Canonical(a.extents) {
      forall x: nat ensures Count(c.trace[|a.trace|..], x) <= n + 1 {
        CountConcat(Since(a, b), Since(b, c), x);
        assert Count(b.trace[|a.trace|..], x) <= n;
      }
    }
  }

  lemma MorePasses(a: Moment, b: Moment, c: Moment, n: nat, m: nat, sectorSize: nat, capacity: nat, limit: nat)
    requires Progress(a, b, sectorSize, capacity, limit, true) && ReadAtMost(a, b.trace, n)
    requires b.trace <= c.trace && ReadAtMost(b, c.trace, m)
    ensures ReadAtMost(a, c.trace, n + m)
  {
    hide SectorProgress, CallsProgress, Fulls, Aligned, Canonical, Count;
    assert c.trace[|a.trace|..] == Since(a, b) + Since(b, c);
    if Canonical(a.extents) {
      forall x: nat ensures Count(c.trace[|a.trace|..], x) <= n + m {
        CountConcat(Since(a, b), Since(b, c), x);
        assert Count(b.trace[|a.trace|..], x) <= n && Count(c.trace[|b.trace|..], x) <= m;
      }
    }
  }

  /** The fast pass, and what the passes behind it add. */
  lemma FastThenOthers(a: Moment, b: Moment, c: Moment, policy: RecoveryPolicy, sectorSize: nat, capacity: nat, limit: nat)
    requires Progress(a, b, sectorSize, capacity, limit, true) && b.trace <= c.trace && ReadAtMost(b, c.trace, policy.Rounds())
    requires if policy.fast.enabled then NewSectorsOnce(a, b) else b.trace == a.trace
    ensures ReadPerPass(a, c.trace, policy)
  {
    hide SectorProgress, CallsProgress, Fulls, Aligned, Canonical, At, RecoveryPolicy.Rounds;
    assert c.trace[|a.trace|..] == Since(a, b) + Since(b, c);
    if Canonical(a.extents) {
      forall x: nat ensures Count(c.trace[|a.trace|..], x) <=
                            policy.Rounds() + if policy.fast.enabled && At(a.extents, x).None? then 1 else 0 {
        CountConcat(Since(a, b), Since(b, c), x);
        assert Count(c.trace[|b.trace|..], x) <= policy.Rounds();
      }
    }
  }

  lemma FastOnly(a: Moment, b: Moment, policy: RecoveryPolicy)
    requires |a.trace| <= |b.trace| && NewSectorsOnce(a, b) && policy.fast.enabled
    ensures ReadPerPass(a, b.trace, policy)
  {
    hide Count, Canonical, At, RecoveryPolicy.Rounds;
  }

  lemma NothingReadPerPass(a: Moment, policy: RecoveryPolicy)
    ensures ReadPerPass(a, a.trace, policy)
  {
    hide Canonical, At, RecoveryPolicy.Rounds;
    assert a.trace[|a.trace|..] == [];
  }

  /** Everything so far is durable: between passes nothing waits for a checkpoint. */
  ghost predicate Checkpointed(p: RecoveryPersistence)
    reads p, p.store
  {
    p.pendingRecoveredBytes == 0 && p.store.session.staged == []
  }

  /** The adaptive passes in order, each followed by a checkpoint (recovery_strategy.go:121-131). */
  method RunAdaptivePasses(p: RecoveryPersistence, d: Device, sectorSize: uint32, passes: seq<BlockPass>,
                           ghost capacity: nat, ghost limit: nat) returns (e: Option<RunError>)
    requires Ready(p, capacity) && 0 < sectorSize && limit <= 0xFFFF && Checkpointed(p)
    requires forall i :: 0 <= i < |passes| && passes[i].enabled ==> passes[i].blockSectors != 0 && passes[i].attemptsLimit <= limit
    modifies p, p.store, p.medium, d
    ensures Ready(p, capacity) && (e.None? ==> Checkpointed(p))
    ensures Progress(old(Now(p, d)), Now(p, d), sectorSize, capacity, limit, e.None?)
    ensures e.None? ==> Tried(old(p.store.extents), p.store.extents, passes)
    ensures ReadAtMost(old(Now(p, d)), d.trace, Enabled(passes))
    ensures Excused(e, p, d)
  {
    hide Progress, RecoveryPersistence.Valid, Sound, Harmless, Attended, ReadOnce, Canonical, Tried, ReadAtMost, Enabled;
    ghost var a := Now(p, d);
    Unmoved(a, sectorSize, capacity, limit, true);
    NotTriedYet(a.extents);
    NeverRead(a, Enabled([]));
    assert passes[..0] == [];
    for i := 0 to |passes|
      invariant Ready(p, capacity) && Checkpointed(p)
      invariant Progress(a, Now(p, d), sectorSize, capacity, limit, true)
      invariant Tried(a.extents, p.store.extents, passes[..i])
      invariant ReadAtMost(a, d.trace, Enabled(passes[..i]))
    {
      var adaptive := passes[i];
      ghost var b := Now(p, d);
      EnabledNext(passes, i);
      if !adaptive.enabled {
        DisabledTries(a.extents, b.extents, passes, i);
        continue;
      }
      e := RunAdaptivePass(p, d, sectorSize, adaptive.blockSectors, adaptive.attemptsLimit, capacity, limit);
      ProgressThen(a, b, Now(p, d), sectorSize, capacity, limit, e.None?);
      OneMorePass(a, b, Now(p, d), Enabled(passes[..i]), sectorSize, capacity, limit);
      if e.Some? {
        ReadMore(a, d.trace, Enabled(passes[..i+1]), Enabled(passes));
        return;
      }
      SoundParts(p.store.extents, capacity);
      AttendedTries(a.extents, b, Now(p, d), passes, i, sectorSize, capacity, limit);
      var checkpoint := p.ForceCheckpoint(PassTransition);
      if checkpoint.Some? {
        ProgressWeakens(a, Now(p, d), sectorSize, capacity, limit, false);
        ReadMore(a, d.trace, Enabled(passes[..i+1]), Enabled(passes));
        return Some(PersistFailed(checkpoint.value));
      }
    }
    assert passes[..|passes|] == passes;
    return None;
  }

  /** Everything after the fast pass (recovery_strategy.go:110-147): the trim pass, then the block passes. */
  method RetryDeferred(p: RecoveryPersistence, d: Device, sectorSize: uint32, policy: RecoveryPolicy, ghost capacity: nat)
    returns (e: Option<RunError>)
    requires Ready(p, capacity) && 0 < sectorSize && policy.Valid() && (policy.finalizeUnresolved ==> p.mayGiveUp)
    modifies p, p.store, p.medium, d
    ensures Ready(p, capacity) && (e.None? ==> Checkpointed(p))
    ensures Progress(old(Now(p, d)), Now(p, d), sectorSize, capacity, policy.Limit(), e.None?)
    ensures e.None? && policy.finalizeUnresolved ==> NoneIn(p.store.extents, Deferred)
    ensures e.None? ==> Tried(old(p.store.extents), p.store.extents, policy.adaptive + [policy.targeted])
    ensures e.None? ==> EdgesTried(old(p.store.extents), p.store.extents, policy)
    ensures ReadAtMost(old(Now(p, d)), d.trace, policy.Rounds())
    ensures Excused(e, p, d)
  {
    hide Progress, RecoveryPersistence.Valid, Sound, Harmless, Attended, ReadOnce, Canonical, OnlyEdges, AllEdgesAttended, NoneIn, Tried, ReadAtMost,
         Enabled, EdgesTried, EdgesTrimmed, Least, At, Excused;
    ghost var a, limit, trims, rounds := Now(p, d), policy.Limit(), Times(policy.trim.enabled), policy.Rounds();
    ghost var blocks := Enabled(policy.adaptive) + Times(policy.targeted.enabled);
    e := TrimDeferred(p, d, sectorSize, policy.trim, capacity, limit);
    ghost var b := Now(p, d);
    ReadMore(a, d.trace, trims, rounds);
    if e.Some? {
      return;
    }
    SoundParts(b.extents, capacity);
    ProgressWeakens(a, b, sectorSize, capacity, limit, false);
    var checkpoint := p.ForceCheckpoint(PassTransition);
    if checkpoint.Some? {
      StorageExcuses(checkpoint.value, p, d);
      return Some(PersistFailed(checkpoint.value));
    }
    e := RetryBlocks(p, d, sectorSize, policy, capacity);
    ProgressThen(a, b, Now(p, d), sectorSize, capacity, limit, e.None?);
    MorePasses(a, b, Now(p, d), trims, blocks, sectorSize, capacity, limit);
    if e.None? {
      TriedFromEarlier(a, b, Now(p, d), policy.adaptive + [policy.targeted], sectorSize, capacity, limit);
      EdgesThenBlocks(a, b, Now(p, d), policy, sectorSize, capacity, limit);
    }
  }

  lemma StorageExcuses(e: PersistError, p: RecoveryPersistence, d: Device)
    requires p.Failing(e) && e != EmptyPayload && e != PayloadTooBig && !(e.MapFailed? && e.store.Rejected?)
    ensures Excused(Some(PersistFailed(e)), p, d)
  {
  }

  /** A checkpoint and, if it is enabled, the trim pass (recovery_strategy.go:110-117). */
  method TrimDeferred(p: RecoveryPersistence, d: Device, sectorSize: uint32, trim: TrimPass, ghost capacity: nat, ghost limit: nat)
    returns (e: Option<RunError>)
    requires Ready(p, capacity) && 0 < sectorSize && (trim.enabled ==> trim.attemptsLimit <= limit) && limit <= 0xFFFF
    modifies p, p.store, p.medium, d
    ensures Ready(p, capacity)
    ensures Progress(old(Now(p, d)), Now(p, d), sectorSize, capacity, limit, e.None?)
    ensures e.None? ==> EdgesTrimmed(old(p.store.extents), p.store.extents, trim)
    ensures ReadAtMost(old(Now(p, d)), d.trace, Times(trim.enabled))
    ensures Excused(e, p, d)
  {
    hide Progress, RecoveryPersistence.Valid, Sound, Harmless, ReadOnce, Canonical, OnlyEdges, AllEdgesAttended, ReadAtMost, EdgesTrimmed, EdgeAttended,
         RetryableExtents;
    ghost var a := Now(p, d);
    NeverRead(a, 0);
    ReadMore(a, a.trace, 0, Times(trim.enabled));
    SoundParts(a.extents, capacity);
    Unmoved(a, sectorSize, capacity, limit, false);
    Unmoved(a, sectorSize, capacity, limit, true);
    var checkpoint := p.ForceCheckpoint(PassTransition);
    if checkpoint.Some? {
      return Some(PersistFailed(checkpoint.value));
    }
    if !trim.enabled {
      TrimmedEdges(a, a, trim, sectorSize, capacity, limit);
      return None;
    }
    e := RunTrimPass(p, d, sectorSize, trim.attemptsLimit, capacity, limit);
    ghost var b := Now(p, d);
    ProgressTrace(a, b, sectorSize, capacity, limit, e.None?);
    OneMorePass(a, a, b, 0, sectorSize, capacity, limit);
    if e.None? {
      SoundParts(b.extents, capacity);
      AttendedAreTrimmed(a.extents, b.extents, trim.attemptsLimit);
      TrimmedEdges(a, b, trim, sectorSize, capacity, limit);
    }
  }

  /** The trim pass has attended to the edges of what could be retried, if it was enabled. */
  ghost predicate EdgesTrimmed(s: seq<Extent>, t: seq<Extent>, trim: TrimPass) {
    forall x: nat :: OnEdge(s, x) ==> SectorTried(At(s, x), At(t, x), [AsBlocks(trim)])
  }

  /** The two ends of every range of two sectors or more are tried by the trim pass as well as by the block passes. */
  ghost predicate EdgesTried(s: seq<Extent>, t: seq<Extent>, policy: RecoveryPolicy) {
    forall x: nat :: OnEdge(s, x) ==> SectorTried(At(s, x), At(t, x), [AsBlocks(policy.trim)] + (policy.adaptive + [policy.targeted]))
  }

  ghost predicate OnEdge(s: seq<Extent>, x: nat) {
    exists e :: e in s && IsRetryableState(e.mark.state) && EdgeOf(e, x)
  }

  /** The trim pass counts as a pass of blocks of one sector. */
  function AsBlocks(trim: TrimPass): BlockPass {
    BlockPass(trim.enabled, 1, trim.attemptsLimit)
  }

  ghost predicate EdgeAttended(s: seq<Extent>, t: seq<Extent>, attemptLimit: nat) {
    forall x: nat :: OnEdge(s, x) ==> SectorAttended(At(s, x), At(t, x), attemptLimit)
  }

  lemma AttendedAreTrimmed(s: seq<Extent>, t: seq<Extent>, attemptLimit: nat)
    requires AllEdgesAttended(s, t, attemptLimit)
    ensures EdgeAttended(s, t, attemptLimit)
  {
    hide SectorAttended, EdgeOf, At;
    forall x: nat | OnEdge(s, x) ensures SectorAttended(At(s, x), At(t, x), attemptLimit) {
      var e :| e in s && IsRetryableState(e.mark.state) && EdgeOf(e, x);
      assert e in RetryableExtents(s);
      var k :| 0 <= k < |RetryableExtents(s)| && RetryableExtents(s)[k] == e;
    }
  }

  lemma TrimmedEdges(a: Moment, b: Moment, trim: TrimPass, sectorSize: nat, capacity: nat, limit: nat)
    requires Progress(a, b, sectorSize, capacity, limit, true) && ValidSet(b.extents)
    requires trim.enabled ==> EdgeAttended(a.extents, b.extents, trim.attemptsLimit)
    ensures EdgesTrimmed(a.extents, b.extents, trim)
  {
    hide Progress, ValidSet, Least, OnEdge;
    forall x: nat | OnEdge(a.extents, x) ensures SectorTried(At(a.extents, x), At(b.extents, x), [AsBlocks(trim)]) {
      LeastOfOne(Attempts(At(a.extents, x)), [AsBlocks(trim)]);
      if Retryable(At(a.extents, x)) {
        RetryableStays(a, b, x, sectorSize, capacity, limit, true);
      }
    }
  }

  lemma {:induction false} LeastThen(attempts: nat, first: seq<BlockPass>, passes: seq<BlockPass>)
    ensures Least(attempts, first + passes) == Least(Least(attempts, first), passes)
  {
    if passes == [] {
      assert first + passes == first;
    } else {
      assert (first + passes)[..|first + passes|-1] == first + passes[..|passes|-1];
      LeastThen(attempts, first, passes[..|passes|-1]);
    }
  }

  lemma SectorTriedThen(m: Option<Mark>, m': Option<Mark>, m'': Option<Mark>, first: seq<BlockPass>, passes: seq<BlockPass>)
    requires SectorTried(m, m', first) && SectorTried(m', m'', passes) && (Claims(m') ==> Claims(m''))
    ensures SectorTried(m, m'', first + passes)
  {
    hide Least;
    LeastThen(Attempts(m), first, passes);
    if Retryable(m) && Retryable(m') {
      LeastGrows(Least(Attempts(m), first), Attempts(m'), passes);
    }
  }

  lemma EdgesThenBlocks(a: Moment, b: Moment, c: Moment, policy: RecoveryPolicy, sectorSize: nat, capacity: nat, limit: nat)
    requires EdgesTrimmed(a.extents, b.extents, policy.trim) && Progress(b, c, sectorSize, capacity, limit, true)
    requires Tried(b.extents, c.extents, policy.adaptive + [policy.targeted])
    ensures EdgesTried(a.extents, c.extents, policy)
  {
    hide Progress, OnEdge, SectorTried, At;
    forall x: nat | OnEdge(a.extents, x)
      ensures SectorTried(At(a.extents, x), At(c.extents, x), [AsBlocks(policy.trim)] + (policy.adaptive + [policy.targeted]))
    {
      MarkOfProgress(b, c, x, sectorSize, capacity, limit, true);
      assert SectorTried(At(b.extents, x), At(c.extents, x), policy.adaptive + [policy.targeted]);
      SectorTriedThen(At(a.extents, x), At(b.extents, x), At(c.extents, x), [AsBlocks(policy.trim)], policy.adaptive + [policy.targeted]);
    }
  }

  /** The block passes (recovery_strategy.go:121-147). */
  method RetryBlocks(p: RecoveryPersistence, d: Device, sectorSize: uint32, policy: RecoveryPolicy, ghost capacity: nat) returns (e: Option<RunError>)
    requires Ready(p, capacity) && 0 < sectorSize && policy.Valid() && (policy.finalizeUnresolved ==> p.mayGiveUp) && Checkpointed(p)
    modifies p, p.store, p.medium, d
    ensures Ready(p, capacity) && (e.None? ==> Checkpointed(p))
    ensures Progress(old(Now(p, d)), Now(p, d), sectorSize, capacity, policy.Limit(), e.None?)
    ensures |old(d.trace)| <= |d.trace| && old(d.trace) <= d.trace
    ensures e.None? && policy.finalizeUnresolved ==> NoneIn(p.store.extents, Deferred)
    ensures e.None? ==> Tried(old(p.store.extents), p.store.extents, policy.adaptive + [policy.targeted])
    ensures ReadAtMost(old(Now(p, d)), d.trace, Enabled(policy.adaptive) + Times(policy.targeted.enabled))
    ensures Excused(e, p, d)
  {
    hide Progress, RecoveryPersistence.Valid, Sound, Harmless, Canonical, NoneIn, Tried, ReadAtMost, Enabled, Least;
    ghost var a, limit, blocks := Now(p, d), policy.Limit(), Enabled(policy.adaptive) + Times(policy.targeted.enabled);
    e := RunAdaptivePasses(p, d, sectorSize, policy.adaptive, capacity, limit);
    ProgressTrace(a, Now(p, d), sectorSize, capacity, limit, e.None?);
    if e.Some? {
      ReadMore(a, d.trace, Enabled(policy.adaptive), blocks);
      return;
    }
    e := RetryTargeted(p, d, sectorSize, policy, a, capacity);
    ProgressTrace(a, Now(p, d), sectorSize, capacity, limit, e.None?);
    if e.Some? {
      return;
    }
    e := FinishPasses(p, d, sectorSize, policy, a, capacity);
    ProgressTrace(a, Now(p, d), sectorSize, capacity, limit, e.None?);
  }

  lemma TriedFromEarlier(a: Moment, b: Moment, c: Moment, passes: seq<BlockPass>, sectorSize: nat, capacity: nat, limit: nat)
    requires Progress(a, b, sectorSize, capacity, limit, true) && Progress(b, c, sectorSize, capacity, limit, true)
    requires ValidSet(b.extents) && Tried(b.extents, c.extents, passes)
    ensures Tried(a.extents, c.extents, passes)
  {
    hide Progress, ValidSet;
    forall x: nat ensures SectorTried(At(a.extents, x), At(c.extents, x), passes) {
      if Retryable(At(a.extents, x)) {
        RetryableStays(a, b, x, sectorSize, capacity, limit, true);
        MarkOfProgress(b, c, x, sectorSize, capacity, limit, true);
        assert SectorTried(At(b.extents, x), At(c.extents, x), passes);
        LeastGrows(Attempts(At(a.extents, x)), Attempts(At(b.extents, x)), passes);
      }
    }
  }

  lemma {:induction false} LeastGrows(fewer: nat, more: nat, passes: seq<BlockPass>)
    requires fewer <= more
    ensures Least(fewer, passes) <= Least(more, passes)
  {
    if passes != [] {
      LeastGrows(fewer, more, passes[..|passes|-1]);
    }
  }

  /** The targeted pass, if it is enabled (recovery_strategy.go:132-139). */
  method RetryTargeted(p: RecoveryPersistence, d: Device, sectorSize: uint32, policy: RecoveryPolicy, ghost a: Moment, ghost capacity: nat)
    returns (e: Option<RunError>)
    requires Ready(p, capacity) && 0 < sectorSize && policy.Valid() && Checkpointed(p)
    requires Progress(a, Now(p, d), sectorSize, capacity, policy.Limit(), true)
    requires Tried(a.extents, p.store.extents, policy.adaptive)
    requires ReadAtMost(a, d.trace, Enabled(policy.adaptive))
    modifies p, p.store, p.medium, d
    ensures Ready(p, capacity) && (e.None? ==> Checkpointed(p))
    ensures Progress(a, Now(p, d), sectorSize, capacity, policy.Limit(), e.None?)
    ensures e.None? ==> Tried(a.extents, p.store.extents, policy.adaptive + [policy.targeted])
    ensures ReadAtMost(a, d.trace, Enabled(policy.adaptive) + Times(policy.targeted.enabled))
    ensures Excused(e, p, d)
  {
    hide Progress, RecoveryPersistence.Valid, Sound, Harmless, Attended, ReadOnce, Canonical, NoneIn, At, Tried, ReadAtMost, Enabled,
         Least, RangeBlocks, RetryableExtents, Finalized;
    ghost var limit, rounds := policy.Limit(), Enabled(policy.adaptive);
    ReadMore(a, d.trace, rounds, rounds + Times(policy.targeted.enabled));
    ghost var passes := policy.adaptive + [policy.targeted];
    assert passes[..|policy.adaptive|] == policy.adaptive && passes[..|policy.adaptive|+1] == passes;
    ghost var b := Now(p, d);
    if !policy.targeted.enabled {
      DisabledTries(a.extents, b.extents, passes, |policy.adaptive|);
      return None;
    }
    e := RunAdaptivePass(p, d, sectorSize, policy.targeted.blockSectors, policy.targeted.attemptsLimit, capacity, limit);
    ghost var c := Now(p, d);
    ProgressThen(a, b, c, sectorSize, capacity, limit, e.None?);
    OneMorePass(a, b, c, rounds, sectorSize, capacity, limit);
    if e.Some? {
      return;
    }
    SoundParts(c.extents, capacity);
    AttendedTries(a.extents, b, c, passes, |policy.adaptive|, sectorSize, capacity, limit);
    ProgressWeakens(a, c, sectorSize, capacity, limit, false);
    var checkpoint := p.ForceCheckpoint(PassTransition);
    if checkpoint.Some? {
      StorageExcuses(checkpoint.value, p, d);
      return Some(PersistFailed(checkpoint.value));
    }
    return None;
  }

  /** The end of a run: the finalization and the flush. */
  method FinishPasses(p: RecoveryPersistence, d: Device, sectorSize: uint32, policy: RecoveryPolicy, ghost a: Moment, ghost capacity: nat)
    returns (e: Option<RunError>)
    requires Ready(p, capacity) && 0 < sectorSize && policy.Valid() && (policy.finalizeUnresolved ==> p.mayGiveUp) && Checkpointed(p)
    requires Progress(a, Now(p, d), sectorSize, capacity, policy.Limit(), true)
    requires Tried(a.extents, p.store.extents, policy.adaptive + [policy.targeted])
    modifies p, p.store, p.medium
    ensures Ready(p, capacity) && (e.None? ==> Checkpointed(p))
    ensures Progress(a, Now(p, d), sectorSize, capacity, policy.Limit(), e.None?)
    ensures e.None? && policy.finalizeUnresolved ==> NoneIn(p.store.extents, Deferred)
    ensures e.None? ==> Tried(a.extents, p.store.extents, policy.adaptive + [policy.targeted])
    ensures Excused(e, p, d)
  {
    hide Progress, RecoveryPersistence.Valid, Sound, Harmless, Canonical, NoneIn, At, Tried, Enabled, Least, RetryableExtents, Finalized;
    ghost var limit, passes := policy.Limit(), policy.adaptive + [policy.targeted];
    if policy.finalizeUnresolved {
      ghost var b := Now(p, d);
      e := FinalizeUnresolvedRanges(p, d, sectorSize, capacity, limit);
      ProgressThen(a, b, Now(p, d), sectorSize, capacity, limit, true);
      ProgressWeakens(a, Now(p, d), sectorSize, capacity, limit, false);
      if e.Some? {
        return;
      }
      FinalizedHasNoneDeferred(b.extents, p.store.extents);
      SoundParts(p.store.extents, capacity);
      TriedStays(a.extents, b, Now(p, d), passes, sectorSize, capacity, limit, true);
    }
    var flushed := p.ForceCheckpoint(RecoveryReturn);
    if flushed.Some? {
      ProgressWeakens(a, Now(p, d), sectorSize, capacity, limit, false);
      return Some(PersistFailed(flushed.value));
    }
    return None;
  }

  lemma FinalizedHasNoneDeferred(s: seq<Extent>, t: seq<Extent>)
    requires forall x: nat :: At(t, x) == Finalized(At(s, x))
    ensures NoneIn(t, Deferred)
  {
    hide At;
    forall x: nat ensures !SectorIn(At(t, x), Deferred) {
      assert At(t, x) == Finalized(At(s, x));
    }
  }

  lemma NoneRetryableNoneDeferred(s: seq<Extent>)
    requires NoneRetryable(s)
    ensures NoneIn(s, Deferred)
  {
    RetryableClasses(s);
  }

  /** No sector is given up early: one that had no data at the start is recovered, or the fast pass and every block pass
      whose limit it had not reached have tried it. */
  ghost predicate GivenUpLate(s: seq<Extent>, t: seq<Extent>, capacity: nat, passes: seq<BlockPass>) {
    forall x: nat :: x < capacity && (At(s, x).None? || Retryable(At(s, x))) ==>
      Claims(At(t, x)) || Least(Max(Attempts(At(s, x)), if At(s, x).None? then 1 else 0), passes) <= Attempts(At(t, x))
  }

  lemma RunGivesUpLate(s: seq<Extent>, b: Moment, c: Moment, passes: seq<BlockPass>, sectorSize: nat, capacity: nat, limit: nat)
    requires AcquiredTo(s, b.extents, capacity) && Progress(b, c, sectorSize, capacity, limit, true) && Tried(b.extents, c.extents, passes)
    ensures GivenUpLate(s, c.extents, capacity, passes)
  {
    hide Progress, At, Least;
    forall x: nat | x < capacity && (At(s, x).None? || Retryable(At(s, x)))
      ensures Claims(At(c.extents, x)) || Least(Max(Attempts(At(s, x)), if At(s, x).None? then 1 else 0), passes) <= Attempts(At(c.extents, x))
    {
      assert if x < capacity && At(s, x).None? then FirstMark(At(b.extents, x)) else At(b.extents, x) == At(s, x);
      MarkOfProgress(b, c, x, sectorSize, capacity, limit, true);
      assert SectorTried(At(b.extents, x), At(c.extents, x), passes);
    }
  }

  // ----- what an explicit retry tries

  lemma {:induction false} LeastRaised(attempts: nat, passes: seq<BlockPass>, offset: uint16)
    requires attempts <= offset && forall i :: 0 <= i < |passes| && passes[i].enabled ==> Enabled(passes[..i]) < passes[i].attemptsLimit
    ensures Min(attempts + Enabled(passes), 0xFFFF) <= Least(attempts, RaisedAll(passes, offset))
  {
    if passes != [] {
      var n := |passes| - 1;
      var front := passes[..n];
      forall i | 0 <= i < |front| && front[i].enabled ensures Enabled(front[..i]) < front[i].attemptsLimit {
        assert front[..i] == passes[..i];
      }
      LeastRaised(attempts, front, offset);
      assert RaisedAll(passes, offset)[..n] == RaisedAll(front, offset);
    }
  }

  lemma RaisedPasses(policy: RecoveryPolicy, offset: uint16)
    ensures var r := RetryPolicy(policy, offset);
            r.adaptive + [r.targeted] == RaisedAll(policy.adaptive + [policy.targeted], offset)
  {
    var all := policy.adaptive + [policy.targeted];
    var r := RetryPolicy(policy, offset);
    if offset == 0 {
      forall i | 0 <= i < |all| ensures Raised(all[i], 0) == all[i] {
      }
    }
    assert r.adaptive + [r.targeted] == RaisedAll(all, offset);
  }

  /** How many more attempts a retry makes at a sector it does not recover, at least. */
  function RetryEffort(kind: RecoveryMethod): nat {
    if kind == Fast then 1 else if kind == Gentle then 2 else 3
  }

  /** Every sector that could be retried has data now or has been tried that many times more, short of saturation. */
  ghost predicate Retried(s: seq<Extent>, t: seq<Extent>, capacity: nat, kind: RecoveryMethod) {
    forall x: nat :: x < capacity && Retryable(At(s, x)) ==>
      Claims(At(t, x)) || Min(Attempts(At(s, x)) + RetryEffort(kind), 0xFFFF) <= Attempts(At(t, x))
  }

  lemma BuiltInHeadroom(kind: RecoveryMethod)
    requires PolicyForMethod(kind).Some?
    ensures var passes := PolicyForMethod(kind).value.adaptive + [PolicyForMethod(kind).value.targeted];
            && Enabled(passes) == RetryEffort(kind)
            && forall i :: 0 <= i < |passes| && passes[i].enabled ==> Enabled(passes[..i]) < passes[i].attemptsLimit
  {
    hide Enabled;
    var p := PolicyForMethod(kind).value;
    var passes := p.adaptive + [p.targeted];
    EnabledOnTheWay(passes, 0);
    EnabledOnTheWay(passes, 1);
    if |passes| == 3 {
      EnabledOnTheWay(passes, 2);
    }
    assert passes[..|passes|] == passes;
  }

  lemma EnabledOnTheWay(passes: seq<BlockPass>, i: nat)
    requires i < |passes|
    ensures i == 0 ==> Enabled(passes[..0]) == 0
    ensures Enabled(passes[..i+1]) == Enabled(passes[..i]) + Times(passes[i].enabled)
  {
    EnabledNext(passes, i);
    assert passes[..0] == [];
  }

  /** A retry with a built-in method tries again whatever it could not read before. */
  lemma RetryTriesAgain(kind: RecoveryMethod, s: seq<Extent>, t: seq<Extent>, capacity: nat)
    requires PolicyForMethod(kind).Some? && ValidSet(s)
    requires var r := RetryPolicy(PolicyForMethod(kind).value, AttemptOffset(s)); GivenUpLate(s, t, capacity, r.adaptive + [r.targeted])
    ensures Retried(s, t, capacity, kind)
  {
    hide PolicyForMethod, Least, Enabled, At, ValidSet;
    var p, offset := PolicyForMethod(kind).value, AttemptOffset(s);
    var r := RetryPolicy(p, offset);
    RaisedPasses(p, offset);
    BuiltInHeadroom(kind);
    forall x: nat | x < capacity && Retryable(At(s, x))
      ensures Claims(At(t, x)) || Min(Attempts(At(s, x)) + RetryEffort(kind), 0xFFFF) <= Attempts(At(t, x))
    {
      AttemptsWithinOffset(s, x);
      LeastRaised(Attempts(At(s, x)), p.adaptive + [p.targeted], offset);
    }
  }

  lemma AttemptsWithinOffset(s: seq<Extent>, x: nat)
    requires Retryable(At(s, x))
    ensures Attempts(At(s, x)) <= AttemptOffset(s)
  {
    var i := AtFound(s, x);
    assert s[i] in s;
  }

  function Effort(kind: RecoveryMethod): nat {
    if kind == Fast then 2 else if kind == Gentle then 3 else 4
  }

  /** With the built-in policies a sector that the map did not cover and that stays unread has been read at least 2, 4
      or 3 times when a run ends without error. */
  lemma BuiltInEffort(kind: RecoveryMethod, s: seq<Extent>, t: seq<Extent>, capacity: nat, lba: nat)
    requires PolicyForMethod(kind).Some?
    requires GivenUpLate(s, t, capacity, PolicyForMethod(kind).value.adaptive + [PolicyForMethod(kind).value.targeted])
    requires lba < capacity && At(s, lba).None?
    ensures Claims(At(t, lba)) || Effort(kind) <= Attempts(At(t, lba))
  {
    hide PolicyForMethod, Least, At;
    BuiltInLeast(kind);
  }

  lemma BuiltInLeast(kind: RecoveryMethod)
    requires PolicyForMethod(kind).Some?
    ensures Least(1, PolicyForMethod(kind).value.adaptive + [PolicyForMethod(kind).value.targeted]) == Effort(kind)
  {
    hide Least, OneMore;
    var p := PolicyForMethod(kind).value;
    LeastSnoc(1, p.adaptive, p.targeted);
    if |p.adaptive| == 1 {
      LeastOfOne(1, p.adaptive);
    } else {
      assert p.adaptive == [p.adaptive[0]] + [p.adaptive[1]];
      LeastSnoc(1, [p.adaptive[0]], p.adaptive[1]);
      LeastOfOne(1, [p.adaptive[0]]);
    }
    Steps(p.targeted);
  }

  lemma LeastOfOne(attempts: nat, passes: seq<BlockPass>)
    requires |passes| == 1
    ensures Least(attempts, passes) == OneMore(attempts, passes[0])
  {
    assert passes[..0] == [];
  }

  lemma Steps(targeted: BlockPass)
    ensures OneMore(1, BlockPass(true, 16, 2)) == 2 && OneMore(1, BlockPass(true, 8, 2)) == 2
    ensures OneMore(OneMore(1, BlockPass(true, 16, 3)), BlockPass(true, 4, 4)) == 3
    ensures forall n: nat :: OneMore(n, targeted) == if targeted.enabled && n < targeted.attemptsLimit then n + 1 else n
  {
  }

  lemma LeastSnoc(attempts: nat, passes: seq<BlockPass>, pass: BlockPass)
    ensures Least(attempts, passes + [pass]) == OneMore(Least(attempts, passes), pass)
  {
    assert (passes + [pass])[..|passes|] == passes;
  }

  lemma NothingLeftToTry(s: seq<Extent>, t: seq<Extent>, capacity: nat, passes: seq<BlockPass>)
    requires AcquiredTo(s, t, capacity) && NoneRetryable(t)
    ensures GivenUpLate(s, t, capacity, passes)
  {
    hide At, Least;
    forall x: nat | x < capacity && (At(s, x).None? || Retryable(At(s, x))) ensures Claims(At(t, x)) {
      assert if x < capacity && At(s, x).None? then FirstMark(At(t, x)) else At(t, x) == At(s, x);
      assert !Retryable(At(t, x));
    }
  }

  /** The passes of a run, up to the flush every return makes. */
  method RunPasses(p: RecoveryPersistence, d: Device, sectorSize: uint32, capacity: uint64, policy: RecoveryPolicy)
    returns (e: Option<RunError>, ghost acquired: seq<Extent>)
    requires Ready(p, capacity) && 0 < sectorSize && policy.Valid() && (policy.finalizeUnresolved ==> p.mayGiveUp)
    modifies p, p.store, p.medium, d
    ensures Ready(p, capacity) && (e.None? ==> Checkpointed(p))
    ensures Progress(old(Now(p, d)), Now(p, d), sectorSize, capacity, policy.Limit(), e.None?)
    ensures e.None? && policy.fast.enabled ==> Covered(p.store.extents, capacity)
    ensures e.None? && policy.fast.enabled ==>
              GivenUpLate(old(p.store.extents), p.store.extents, capacity, policy.adaptive + [policy.targeted])
    ensures e.None? && policy.finalizeUnresolved ==> NoneIn(p.store.extents, Deferred)
    ensures e.None? ==> BeginsWith(old(p.store.extents), acquired, capacity, policy.fast) && EdgesTried(acquired, p.store.extents, policy)
    ensures ReadPerPass(old(Now(p, d)), d.trace, policy)
    ensures Excused(e, p, d)
  {
    hide Progress, RecoveryPersistence.Valid, Sound, Harmless, NoneIn, NoneRetryable, Covered, NewSectorsOnce, At, Tried, AcquiredTo, GivenUpLate,
         ReadPerPass, ReadAtMost, RecoveryPolicy.Rounds, Canonical, EdgesTried;
    ghost var a, limit, passes := Now(p, d), policy.Limit(), policy.adaptive + [policy.targeted];
    acquired := a.extents;
    NothingReadPerPass(a, policy);
    Unmoved(a, sectorSize, capacity, limit, true);
    if policy.fast.enabled {
      e := RunFastAcquisitionPass(p, d, sectorSize, capacity, policy.fast.blockSectors, limit);
      ProgressTrace(a, Now(p, d), sectorSize, capacity, limit, e.None?);
      FastOnly(a, Now(p, d), policy);
      if e.Some? {
        return;
      }
      AcquiredCovers(a.extents, p.store.extents, capacity);
    }
    ghost var b := Now(p, d);
    acquired := b.extents;
    UnresolvedMeansRetryable(b.extents, capacity);
    var unresolved := UnresolvedSectorCount(p.store.extents);
    if unresolved == 0 {
      NoneRetryableNoneDeferred(b.extents);
      NoEdges(b.extents, policy, capacity);
      if policy.fast.enabled {
        NothingLeftToTry(a.extents, b.extents, capacity, passes);
      }
      var flushed := p.ForceCheckpoint(RecoveryReturn);
      if flushed.Some? {
        ProgressWeakens(a, Now(p, d), sectorSize, capacity, limit, false);
        return Some(PersistFailed(flushed.value)), acquired;
      }
      return None, acquired;
    }
    e := RetryDeferred(p, d, sectorSize, policy, capacity);
    ProgressThen(a, b, Now(p, d), sectorSize, capacity, limit, e.None?);
    FastThenOthers(a, b, Now(p, d), policy, sectorSize, capacity, limit);
    if e.None? && policy.fast.enabled {
      CoveredStays(b, Now(p, d), capacity, sectorSize, capacity, limit, true);
      RunGivesUpLate(a.extents, b, Now(p, d), passes, sectorSize, capacity, limit);
    }
  }

  /** The map as the fast pass leaves it, or as it was when there is none. */
  ghost predicate BeginsWith(s: seq<Extent>, acquired: seq<Extent>, capacity: nat, fast: FastPass) {
    if fast.enabled then AcquiredTo(s, acquired, capacity) else acquired == s
  }

  lemma NoEdges(s: seq<Extent>, policy: RecoveryPolicy, capacity: nat)
    requires Sound(s, capacity) && NoneRetryable(s)
    ensures EdgesTried(s, s, policy)
  {
    hide At, Least;
    forall x: nat ensures SectorTried(At(s, x), At(s, x), [AsBlocks(policy.trim)] + (policy.adaptive + [policy.targeted])) {
    }
  }

  /** runPassBasedRecoveryWithPolicy (recovery_strategy.go:69). `flushError` is what the deferred flush adds to the
      error returned. */
  method RunPassBasedRecovery(p: RecoveryPersistence, d: Device, sectorSize: uint32, capacity: uint64, policy: RecoveryPolicy)
    returns (e: Option<RunError>, flushError: Option<PersistError>, ghost acquired: seq<Extent>)
    requires Ready(p, capacity) && (policy.finalizeUnresolved ==> p.mayGiveUp)
    modifies p, p.store, p.medium, d
    ensures Ready(p, capacity)
    ensures 0 < sectorSize ==> Progress(old(Now(p, d)), Now(p, d), sectorSize, capacity, policy.Limit(), e.None?)
    ensures sectorSize == 0 ==> e.Some? && Now(p, d) == old(Now(p, d))
    ensures 0 < sectorSize ==> |d.trace| - |old(d.trace)| <= old(Budget(p.store.extents, policy.Limit(), capacity))
    ensures e.None? && policy.fast.enabled ==> Covered(p.store.extents, capacity)
    ensures e.None? && policy.fast.enabled ==>
              GivenUpLate(old(p.store.extents), p.store.extents, capacity, policy.adaptive + [policy.targeted])
    ensures e.None? && policy.finalizeUnresolved ==> NoneIn(p.store.extents, Deferred)
    ensures e.None? ==> BeginsWith(old(p.store.extents), acquired, capacity, policy.fast) && EdgesTried(acquired, p.store.extents, policy)
    ensures ReadPerPass(old(Now(p, d)), d.trace, policy)
    ensures policy.Valid() && flushError.None? ==> p.pendingRecoveredBytes == 0 && p.store.session.staged == []
    ensures policy.Valid() && flushError != Some(ImageSyncFailed) ==> p.DataDurable()
    ensures e == Some(BadPolicy) <==> !policy.Valid()
    ensures e == Some(BadGeometry) <==> policy.Valid() && (sectorSize == 0 || capacity == 0)
    ensures e in {Some(BadPolicy), Some(BadGeometry)} || Excused(e, p, d)
    ensures flushError.Some? ==> p.shut || p.store.medium.faulty
  {
    hide Progress, RecoveryPersistence.Valid, Sound, Harmless, NoneIn, Covered, Budget, At, GivenUpLate, ReadPerPass, Canonical, EdgesTried, BeginsWith;
    NothingReadPerPass(Now(p, d), policy);
    if !policy.Valid() {
      if 0 < sectorSize {
        Unmoved(Now(p, d), sectorSize, capacity, policy.Limit(), false);
        ReadsWithinBudget(Now(p, d), Now(p, d), sectorSize, capacity, policy.Limit(), false);
      }
      return Some(BadPolicy), None, [];
    }
    ghost var a := Now(p, d);
    acquired := a.extents;
    if sectorSize == 0 {
      e := Some(BadGeometry);
    } else if capacity == 0 {
      Unmoved(a, sectorSize, capacity, policy.Limit(), false);
      e := Some(BadGeometry);
    } else {
      e, acquired := RunPasses(p, d, sectorSize, capacity, policy);
    }
    if 0 < sectorSize {
      ReadsWithinBudget(a, Now(p, d), sectorSize, capacity, policy.Limit(), e.None?);
    }
    flushError := p.ForceCheckpoint(RecoveryReturn);
  }

  // ----- what a run means for a sector

  /** Sectors whose data was claimed before keep their entry and their bytes, and are never read. */
  lemma ClaimedSectorsUntouched(a: Moment, b: Moment, sectorSize: nat, capacity: nat, limit: nat, live: bool, lba: nat)
    requires Progress(a, b, sectorSize, capacity, limit, live) && Claims(At(a.extents, lba))
    ensures At(b.extents, lba) == At(a.extents, lba) && SameBytes(a.image, b.image, lba, sectorSize)
    ensures Count(Since(a, b), lba) == 0
  {
    hide Count, Fulls, CallsProgress, SameBytes, HoldsRead, Aligned;
    assert SectorProgress(a, b, Since(a, b), lba, sectorSize, limit, live);
  }

  /** Read k delivered the sector, and no other did. */
  ghost predicate OnlyDelivery(trace: seq<Read>, k: nat, lba: nat, sectorSize: nat) {
    && k < |trace| && Delivered(trace[k], sectorSize) && trace[k].Covers(lba)
    && forall i :: 0 <= i < |trace| && Delivered(trace[i], sectorSize) && trace[i].Covers(lba) ==> i == k
  }

  lemma FullIsDelivered(trace: seq<Read>, sectorSize: nat, capacity: nat)
    requires ReadsFit(trace, sectorSize, capacity)
    ensures forall i :: 0 <= i < |trace| ==> (trace[i].Full() <==> Delivered(trace[i], sectorSize))
  {
    forall i | 0 <= i < |trace| ensures trace[i].Full() <==> Delivered(trace[i], sectorSize) {
      assert Aligned(trace[i], sectorSize);
    }
  }

  lemma OnlyFullIsOnlyDelivery(trace: seq<Read>, lba: nat, sectorSize: nat, capacity: nat) returns (k: nat)
    requires Count(Fulls(trace), lba) == 1 && ReadsFit(trace, sectorSize, capacity)
    ensures k < |trace| && OnlyDelivery(trace, k, lba, sectorSize) && trace[k].Full() && trace[k].Covers(lba) && trace[k] in Fulls(trace)
  {
    hide Count, Fulls, ReadsFit, Delivered, Read.Full, Read.Covers;
    k := OnlyFull(trace, lba);
    FullIsDelivered(trace, sectorSize, capacity);
  }

  /** A sector newly claimed has the bytes of the one read that delivered it in full. */
  lemma NewClaimIsItsRead(a: Moment, b: Moment, sectorSize: nat, capacity: nat, limit: nat, live: bool, lba: nat) returns (k: nat)
    requires Progress(a, b, sectorSize, capacity, limit, live)
    requires Claims(At(b.extents, lba)) && !Claims(At(a.extents, lba))
    ensures OnlyDelivery(Since(a, b), k, lba, sectorSize) && HoldsRead(b.image, Since(a, b)[k], lba, sectorSize)
  {
    hide CallsProgress, SameBytes, HoldsRead, Aligned, Count, Fulls;
    var trace := Since(a, b);
    assert SectorProgress(a, b, trace, lba, sectorSize, limit, live);
    k := OnlyFullIsOnlyDelivery(trace, lba, sectorSize, capacity);
    var j: nat :| j < |Fulls(trace)| && Fulls(trace)[j] == trace[k];
  }

  lemma {:induction false} NoFull(trace: seq<Read>, lba: nat, i: nat)
    requires i < |trace| && trace[i].Full() && trace[i].Covers(lba)
    ensures Count(Fulls(trace), lba) >= 1
  {
    var p, r := trace[..|trace|-1], trace[|trace|-1];
    CountConcat(Fulls(p), if r.Full() then [r] else [], lba);
    CountOne(r, lba);
    if i < |p| {
      NoFull(p, lba, i);
    }
  }

  /** When exactly one full read covers a sector, it has a place in the trace and no other has. */
  lemma {:induction false} OnlyFull(trace: seq<Read>, lba: nat) returns (k: nat)
    requires Count(Fulls(trace), lba) == 1
    ensures k < |trace| && trace[k].Full() && trace[k].Covers(lba) && trace[k] in Fulls(trace)
    ensures forall i :: 0 <= i < |trace| && trace[i].Full() && trace[i].Covers(lba) ==> i == k
  {
    hide Read.Full, Read.Covers;
    assert trace != [];
    var p, r := trace[..|trace|-1], trace[|trace|-1];
    CountConcat(Fulls(p), if r.Full() then [r] else [], lba);
    CountOne(r, lba);
    if r.Full() && r.Covers(lba) {
      k := |trace| - 1;
      forall i | 0 <= i < |trace| && trace[i].Full() && trace[i].Covers(lba) ensures i == k {
        if i < |p| {
          NoFull(p, lba, i);
        }
      }
    } else {
      k := OnlyFull(p, lba);
    }
  }

  /** Reads that failed or fell short leave no trace in the image: while every read of a sector brought another number of
      bytes than its range has, or met an error before the end of the medium, the sector's bytes stay. */
  lemma OnlyFullReadsWrite(a: Moment, b: Moment, sectorSize: nat, capacity: nat, limit: nat, live: bool, lba: nat)
    requires Progress(a, b, sectorSize, capacity, limit, live)
    requires forall i :: 0 <= i < |Since(a, b)| && Since(a, b)[i].Covers(lba) ==>
               Since(a, b)[i].count != ByteCount(Since(a, b)[i].sectors, sectorSize)
               || (Since(a, b)[i].error.Some? && Since(a, b)[i].error.value != EndOfFile)
    ensures SameBytes(a.image, b.image, lba, sectorSize)
    ensures !Claims(At(a.extents, lba)) ==> !Claims(At(b.extents, lba))
  {
    hide CallsProgress, SameBytes, HoldsRead, Aligned, Count, Fulls;
    var trace := Since(a, b);
    assert SectorProgress(a, b, trace, lba, sectorSize, limit, live);
    if Count(Fulls(trace), lba) == 1 {
      var k := OnlyFullIsOnlyDelivery(trace, lba, sectorSize, capacity);
      assert false;
    }
  }

  /** A stretch that ended without error leaves no sector queued that was not queued before it. */
  lemma NoneLeftQueued(a: Moment, b: Moment, sectorSize: nat, capacity: nat, limit: nat, lba: nat)
    requires Progress(a, b, sectorSize, capacity, limit, true)
    requires At(b.extents, lba).Some? && At(b.extents, lba).value.state == QUEUED
    ensures At(b.extents, lba) == At(a.extents, lba)
  {
    hide Count, Fulls, CallsProgress, SameBytes, HoldsRead, Aligned;
    assert SectorProgress(a, b, Since(a, b), lba, sectorSize, limit, true);
  }

  /** Once a stretch has ended without error, a sector that was read is a first copy if one of its reads delivered it, and
      an error otherwise; only a run that may give sectors up leaves it missing. */
  lemma ReadsAreDecided(a: Moment, b: Moment, sectorSize: nat, capacity: nat, limit: nat, lba: nat)
    requires Progress(a, b, sectorSize, capacity, limit, true) && 0 < Count(Since(a, b), lba)
    ensures At(b.extents, lba).Some?
    ensures var m := At(b.extents, lba).value;
            if exists i :: 0 <= i < |Since(a, b)| && Since(a, b)[i].Covers(lba) && Delivered(Since(a, b)[i], sectorSize)
            then m == PlainMark(READ_UNVERIFIED, SINGLE_READ, m.attempts)
            else m == PlainMark(IO_ERROR, NO_CONFIDENCE, m.attempts) || (b.final && m == PlainMark(MISSING, NO_CONFIDENCE, m.attempts))
  {
    hide CallsProgress, SameBytes, HoldsRead, Count, Fulls, ReadsFit;
    var trace := Since(a, b);
    assert SectorProgress(a, b, trace, lba, sectorSize, limit, true);
    FullIsDelivered(trace, sectorSize, capacity);
    if Count(Fulls(trace), lba) > 0 {
      var k := OnlyFull(trace, lba);
    } else if i :| 0 <= i < |trace| && trace[i].Covers(lba) && Delivered(trace[i], sectorSize) {
      NoFull(trace, lba, i);
    }
  }

  /** Where a run leaves a sector it read and was not delivered: in error, or missing when the policy gives sectors up. */
  lemma UndeliveredEndsAs(a: Moment, b: Moment, sectorSize: nat, capacity: nat, policy: RecoveryPolicy, lba: nat)
    requires Progress(a, b, sectorSize, capacity, policy.Limit(), true) && 0 < Count(Since(a, b), lba)
    requires b.final == policy.finalizeUnresolved && (policy.finalizeUnresolved ==> NoneIn(b.extents, Deferred))
    requires forall i :: 0 <= i < |Since(a, b)| && Since(a, b)[i].Covers(lba) ==> !Delivered(Since(a, b)[i], sectorSize)
    ensures At(b.extents, lba).Some? && At(b.extents, lba).value.state == if policy.finalizeUnresolved then MISSING else IO_ERROR
  {
    hide Progress, Count, Delivered, At;
    ReadsAreDecided(a, b, sectorSize, capacity, policy.Limit(), lba);
    if policy.finalizeUnresolved {
      assert !SectorIn(At(b.extents, lba), Deferred);
    }
  }

  /** A sector that was not read keeps its mark, unless the run gave it up. */
  lemma UnreadKeepsMark(a: Moment, b: Moment, sectorSize: nat, capacity: nat, limit: nat, live: bool, lba: nat)
    requires Progress(a, b, sectorSize, capacity, limit, live) && Count(Since(a, b), lba) == 0
    ensures At(b.extents, lba) == At(a.extents, lba) || (b.final && At(b.extents, lba) == Finalized(At(a.extents, lba)))
    ensures !b.final ==> At(b.extents, lba) == At(a.extents, lba)
  {
    hide Count, Fulls, CallsProgress, SameBytes, HoldsRead, Aligned;
    assert SectorProgress(a, b, Since(a, b), lba, sectorSize, limit, live);
  }

  /** The map's attempts count the reads of each sector, and stay within the limits. Only a run that ended in an error
      may have made one read of a sector that its attempts do not count. */
  lemma AttemptsCountReads(a: Moment, b: Moment, sectorSize: nat, capacity: nat, limit: nat, live: bool, lba: nat)
    requires Progress(a, b, sectorSize, capacity, limit, live)
    ensures var attempts, made := Attempts(At(b.extents, lba)), Attempts(At(a.extents, lba)) + Count(Since(a, b), lba);
            attempts == made || (!live && attempts + 1 == made)
    ensures Attempts(At(b.extents, lba)) <= Max(Attempts(At(a.extents, lba)), limit)
  {
    hide Count, Fulls, CallsProgress, SameBytes, HoldsRead, Aligned;
    assert SectorProgress(a, b, Since(a, b), lba, sectorSize, limit, live);
  }

  lemma NoneSkippedStays(a: Moment, b: Moment, sectorSize: nat, capacity: nat, limit: nat, live: bool)
    requires Progress(a, b, sectorSize, capacity, limit, live) && NoneSkipped(a.extents)
    ensures NoneSkipped(b.extents)
  {
    hide Count, Fulls, CallsProgress, SameBytes, HoldsRead, Aligned;
    forall x: nat | At(b.extents, x).Some? ensures At(b.extents, x).value.state != SKIPPED {
      assert SectorProgress(a, b, Since(a, b), x, sectorSize, limit, live);
    }
  }

  /** Completion: from a map that skips nothing, a run that begins with the fast pass and ends without error
      accounts for every sector in the summary it reports, and with finalization leaves none deferred. */
  lemma RunAccountsForEverySector(a: Moment, b: Moment, sectorSize: nat, capacity: nat, policy: RecoveryPolicy)
    requires Progress(a, b, sectorSize, capacity, policy.Limit(), true) && NoneSkipped(a.extents)
    requires Sound(b.extents, capacity) && Covered(b.extents, capacity)
    requires policy.finalizeUnresolved ==> NoneIn(b.extents, Deferred)
    ensures var r := SummaryOf(b.extents);
            && r.scanned == capacity && r.recovered + r.deferred + r.unreadable == capacity
            && (policy.finalizeUnresolved ==> r.deferred == 0)
  {
    hide Progress, Sound, Covered, Tally;
    NoneSkippedStays(a, b, sectorSize, capacity, policy.Limit(), true);
    CompleteMapAccounted(b.extents, capacity);
    ZeroTally(b.extents, Deferred, capacity);
    SumsFit(b.extents, Scanned, capacity);
    SumsFit(b.extents, Recovered, capacity);
    SumsFit(b.extents, Deferred, capacity);
    SumsFit(b.extents, Unreadable, capacity);
  }

  /** A run that may not give sectors up, over a map where none was given up, reports none unreadable, and as deferred
      exactly the sectors that may still be read. */
  lemma RunReportsDeferred(a: Moment, b: Moment, sectorSize: nat, capacity: nat, limit: nat, live: bool)
    requires Progress(a, b, sectorSize, capacity, limit, live) && !b.final && Sound(b.extents, capacity)
    requires forall x: nat :: At(a.extents, x).Some? ==> At(a.extents, x).value.state != MISSING
    ensures SummaryOf(b.extents).unreadable == 0 && SummaryOf(b.extents).deferred == RetryableSectors(b.extents, capacity)
  {
    hide Count, Fulls, CallsProgress, SameBytes, HoldsRead, Aligned, Sound, InState, MarkProgress;
    forall x: nat | At(b.extents, x).Some? ensures At(b.extents, x).value.state != MISSING {
      assert SectorProgress(a, b, Since(a, b), x, sectorSize, limit, live);
    }
    NoneInState(b.extents, MISSING, capacity);
    SummaryCountsStates(b.extents, capacity);
  }

  // ----- a crash in a run

  /** Write-ahead for whole runs, whatever the device did: take any crash point of a session whose data all came from
      one run, any image and any readable map the crash may leave. A sector the map newly claims was delivered by
      exactly one full read of the run, and the image holds the bytes that read delivered. */
  lemma CrashedRunKeepsItsReads(disk: Disk, start: bytes, header: Header, g: Geometry, l: Ledger, body: bytes, image: Contents, lba: nat,
                                a: Moment, b: Moment, sectorSize: nat, capacity: nat, limit: nat, live: bool) returns (k: nat)
    requires StateOf(header, start, g).Ok? && WholeRecords(JournalOf(start))
    requires CrashSafe(disk, start, StateOf(header, start, g).value.last + 1, l)
    requires disk.map_.MayCrashTo(body) && disk.image.MayCrashTo(image) && StateOf(header, body, g).Ok?
    requires Claims(At(StateOf(header, body, g).value.extents, lba)) && !Claims(At(StateOf(header, start, g).value.extents, lba))
    requires Progress(a, b, sectorSize, capacity, limit, live)
    requires a.calls == [] && b.calls == l.calls && b.recovered == l.recovered && Harmless(l.marks, capacity)
    ensures OnlyDelivery(Since(a, b), k, lba, sectorSize) && HoldsRead(image, Since(a, b)[k], lba, sectorSize)
  {
    hide StateOf, CrashSafe, Held, Progress, HoldsRead, JournalOf, WholeRecords, Harmless, OnlyDelivery;
    var e, c := ClaimsAreBacked(disk, start, header, g, l, body, image, lba);
    ClaimNeedsCall(l, e, c, capacity);
    k := CallIsRead(a, b, image, lba, c.value, sectorSize, capacity, limit, live);
  }

  lemma CallIsRead(a: Moment, b: Moment, image: Contents, lba: nat, j: nat, sectorSize: nat, capacity: nat, limit: nat, live: bool)
    returns (k: nat)
    requires Progress(a, b, sectorSize, capacity, limit, live) && a.calls == []
    requires j < |b.calls| && j < |b.recovered| && b.recovered[j].Covers(lba) && Held(image, b.calls, j)
    ensures OnlyDelivery(Since(a, b), k, lba, sectorSize) && HoldsRead(image, Since(a, b)[k], lba, sectorSize)
  {
    hide Progress, Held, HoldsRead, Count, Fulls, OnlyDelivery, Aligned, Read.Covers, ReadsFit;
    ProgressTrace(a, b, sectorSize, capacity, limit, live);
    var fulls := Fulls(Since(a, b));
    CallsAreFulls(a, b, sectorSize, capacity, limit, live);
    assert Stands(fulls[j], b.calls[j], b.recovered[j]) && fulls[j].Covers(lba) by {
      SameRange(fulls[j], b.calls[j], b.recovered[j], lba);
    }
    OneCallPerSector(a, b, sectorSize, capacity, limit, live, lba, j);
    HeldIsHolds(image, b.calls, fulls, j, lba, sectorSize);
    k := OnlyFullIsOnlyDelivery(Since(a, b), lba, sectorSize, capacity);
    var i: nat :| i < |fulls| && fulls[i] == Since(a, b)[k];
  }

  lemma CallsAreFulls(a: Moment, b: Moment, sectorSize: nat, capacity: nat, limit: nat, live: bool)
    requires Progress(a, b, sectorSize, capacity, limit, live) && a.calls == []
    ensures ReadsFit(Since(a, b), sectorSize, capacity) && 0 < sectorSize
    ensures var fulls := Fulls(Since(a, b));
            && |b.calls| <= |fulls| && |b.recovered| == |b.calls|
            && (forall i :: 0 <= i < |b.calls| ==> Stands(fulls[i], b.calls[i], b.recovered[i]))
            && forall i :: 0 <= i < |b.calls| ==> fulls[i].Full() && fulls[i].Call() == b.calls[i] && Aligned(fulls[i], sectorSize)
  {
    hide SectorProgress, Aligned, Count, Fulls, Canonical, NeverStopped;
    var fulls := Fulls(Since(a, b));
    forall i | 0 <= i < |b.calls| ensures Stands(fulls[i], b.calls[i], b.recovered[i]) && Aligned(fulls[i], sectorSize) {
      assert Stands(fulls[i - |a.calls|], b.calls[i], b.recovered[i]);
      assert fulls[i] in Since(a, b);
    }
  }

  lemma SameRange(r: Read, call: Write, e: Extent, lba: nat)
    requires Stands(r, call, e) && e.Covers(lba)
    ensures r.Covers(lba)
  {
  }

  lemma ClaimNeedsCall(l: Ledger, e: Extent, c: Option<nat>, capacity: nat)
    requires Harmless(l.marks, capacity) && e.mark.ClaimsData() && (c.None? ==> e in l.marks)
    ensures c.Some?
  {
  }

  lemma OneCallPerSector(a: Moment, b: Moment, sectorSize: nat, capacity: nat, limit: nat, live: bool, lba: nat, j: nat)
    requires Progress(a, b, sectorSize, capacity, limit, live)
    requires j < |Fulls(Since(a, b))| && Fulls(Since(a, b))[j].Covers(lba)
    ensures forall k :: 0 <= k < |Fulls(Since(a, b))| && Fulls(Since(a, b))[k].Covers(lba) ==> k == j
    ensures Count(Fulls(Since(a, b)), lba) == 1
  {
    hide Count, Fulls, CallsProgress, SameBytes, HoldsRead, Aligned;
    var fulls := Fulls(Since(a, b));
    assert SectorProgress(a, b, Since(a, b), lba, sectorSize, limit, live);
    CountedOnce(fulls, lba, j);
    forall k | 0 <= k < |fulls| && fulls[k].Covers(lba) ensures k == j {
      if k < j {
        CountedTwice(fulls, lba, k, j);
      } else if j < k {
        CountedTwice(fulls, lba, j, k);
      }
    }
  }

  /** Held speaks of a call or a later one over the same byte; with one call for the sector that is the call itself. */
  lemma HeldIsHolds(image: Contents, calls: seq<Write>, fulls: seq<Read>, j: nat, lba: nat, sectorSize: nat)
    requires 0 < sectorSize && j < |calls| <= |fulls| && Held(image, calls, j) && fulls[j].Covers(lba)
    requires forall k :: 0 <= k < |calls| ==> fulls[k].Full() && fulls[k].Call() == calls[k] && Aligned(fulls[k], sectorSize)
    requires forall k :: 0 <= k < |fulls| && fulls[k].Covers(lba) ==> k == j
    ensures HoldsRead(image, fulls[j], lba, sectorSize)
  {
    hide SectorOf, Aligned;
    var r := fulls[j];
    forall x: nat | SectorOf(x, sectorSize) == lba ensures r.Call().Covers(x) && x in image && image[x] == r.buffer[x - r.offset] {
      CallCovers(r, sectorSize, x);
      assert calls[j].Covers(x);
      var k :| j <= k < |calls| && calls[k].Covers(x) && calls[k].data[x - calls[k].offset] == image[x];
      CallCovers(fulls[k], sectorSize, x);
    }
  }

  /** What a crash at this point must leave: for every sector the map then newly claims, exactly one full read in the
      trace, whose bytes the image holds. */
  ghost predicate Survives(disk: Disk, header: Header, start: bytes, g: Geometry, trace: seq<Read>)
    requires 0 < g.sectorSize && StateOf(header, start, g).Ok?
  {
    forall body: bytes, image: Contents, lba: nat ::
      disk.map_.MayCrashTo(body) && disk.image.MayCrashTo(image) && StateOf(header, body, g).Ok?
      && Claims(At(StateOf(header, body, g).value.extents, lba)) && !Claims(At(StateOf(header, start, g).value.extents, lba))
      ==> DeliveredBy(image, trace, lba, g.sectorSize)
  }

  ghost predicate DeliveredBy(image: Contents, trace: seq<Read>, lba: nat, sectorSize: nat)
    requires 0 < sectorSize
  {
    exists k: nat :: OnlyDelivery(trace, k, lba, sectorSize) && HoldsRead(image, trace[k], lba, sectorSize)
  }

  lemma AllSurvive(history: seq<Disk>, header: Header, start: bytes, g: Geometry, first: nat, l: Ledger, a: Moment, b: Moment,
                   capacity: nat, limit: nat, live: bool)
    requires 0 < g.sectorSize && StateOf(header, start, g).Ok? && CheckpointLength(start).Ok? && WholeRecords(JournalOf(start))
    requires first == StateOf(header, start, g).value.last + 1 && AllCrashSafe(history, start, first, l)
    requires Progress(a, b, g.sectorSize, capacity, limit, live)
    requires a.calls == [] && b.calls == l.calls && b.recovered == l.recovered && Harmless(l.marks, capacity)
    ensures forall k :: 0 <= k < |history| ==> Survives(history[k], header, start, g, Since(a, b))
  {
    hide StateOf, CrashSafe, Progress, HoldsRead, Claims, WholeRecords, Harmless, CheckpointLength, OnlyDelivery;
    ProgressTrace(a, b, g.sectorSize, capacity, limit, live);
    forall k | 0 <= k < |history| ensures Survives(history[k], header, start, g, Since(a, b)) {
      forall body: bytes, image: Contents, lba: nat |
        history[k].map_.MayCrashTo(body) && history[k].image.MayCrashTo(image) && StateOf(header, body, g).Ok?
        && Claims(At(StateOf(header, body, g).value.extents, lba)) && !Claims(At(StateOf(header, start, g).value.extents, lba))
        ensures DeliveredBy(image, Since(a, b), lba, g.sectorSize)
      {
        var i := CrashedRunKeepsItsReads(history[k], start, header, g, l, body, image, lba, a, b, g.sectorSize, capacity, limit, live);
      }
    }
  }
}
