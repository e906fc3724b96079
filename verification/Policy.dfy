/** Recovery policies (internal/recovery/policy.go) and the limits of an explicit retry
    (internal/platform/recovery_retry.go). */
module Policies {
  import opened Prelude
  import opened Transitions
  import opened Extents
  import opened Passes
  import opened Runs

  datatype RecoveryMethod = Unspecified | Fast | Balanced | Gentle | OtherMethod

  datatype FastPass = FastPass(enabled: bool, blockSectors: uint32)

  datatype TrimPass = TrimPass(enabled: bool, attemptsLimit: uint16)

  /** An adaptive or the targeted pass. */
  datatype BlockPass = BlockPass(enabled: bool, blockSectors: uint32, attemptsLimit: uint16)

  datatype Deadlines = Deadlines(healthySoft: int, healthyHard: int, damagedSoft: int, damagedHard: int) {
    predicate Valid() {
      0 < healthySoft <= healthyHard && 0 < damagedSoft <= damagedHard
    }
  }

  datatype RecoveryPolicy = RecoveryPolicy(kind: RecoveryMethod, fast: FastPass, trim: TrimPass, adaptive: seq<BlockPass>,
                                           targeted: BlockPass, finalizeUnresolved: bool, deadlines: Deadlines)
  {
    /** Validate (policy.go:94). */
    predicate Valid() {
      && (kind == Fast || kind == Balanced || kind == Gentle)
      && (fast.enabled ==> fast.blockSectors != 0)
      && (trim.enabled ==> trim.attemptsLimit != 0)
      && (forall i :: 0 <= i < |adaptive| && adaptive[i].enabled ==> adaptive[i].blockSectors != 0 && adaptive[i].attemptsLimit != 0)
      && (targeted.enabled ==> targeted.blockSectors != 0 && targeted.attemptsLimit != 0)
      && (targeted.enabled && |adaptive| > 0 && adaptive[|adaptive|-1].enabled ==>
            targeted.blockSectors <= adaptive[|adaptive|-1].blockSectors)
      && deadlines.Valid()
    }

    /** The largest attempt limit of an enabled pass, and at least the one attempt of the fast pass. */
    function Limit(): (n: nat)
      ensures 1 <= n <= 0xFFFF
    {
      Max(Max(1, if trim.enabled then trim.attemptsLimit else 0),
          Max(if targeted.enabled then targeted.attemptsLimit else 0, AdaptiveLimit(adaptive)))
    }

    /** The number of passes enabled behind the fast pass. */
    function Rounds(): nat {
      Times(trim.enabled) + Enabled(adaptive) + Times(targeted.enabled)
    }
  }

  function Enabled(passes: seq<BlockPass>): nat {
    if passes == [] then 0 else Enabled(passes[..|passes|-1]) + Times(passes[|passes|-1].enabled)
  }

  lemma {:induction false} EnabledNext(passes: seq<BlockPass>, i: nat)
    requires i < |passes|
    ensures Enabled(passes[..i+1]) == Enabled(passes[..i]) + Times(passes[i].enabled) <= Enabled(passes)
    decreases |passes|
  {
    assert passes[..i+1][..i] == passes[..i];
    if i + 1 < |passes| {
      var p := passes[..|passes|-1];
      assert p[..i+1] == passes[..i+1] && p[..i] == passes[..i];
      EnabledNext(p, i);
    } else {
      assert passes[..i+1] == passes;
    }
  }

  function AdaptiveLimit(passes: seq<BlockPass>): (n: nat)
    ensures n <= 0xFFFF
    ensures forall i :: 0 <= i < |passes| && passes[i].enabled ==> passes[i].attemptsLimit <= n
    ensures n == 0 || exists i :: 0 <= i < |passes| && passes[i].enabled && passes[i].attemptsLimit == n
  {
    if passes == [] then 0
    else
      var rest, last := AdaptiveLimit(passes[..|passes|-1]), passes[|passes|-1];
      if last.enabled && last.attemptsLimit > rest then last.attemptsLimit else rest
  }

  const DEFAULT_DEADLINES := Deadlines(5_000, 30_000, 2_000, 10_000)

  const NO_BLOCK_PASS := BlockPass(false, 0, 0)

  /** PolicyForMethod (policy.go:56); an unspecified method is balanced. */
  function PolicyForMethod(kind: RecoveryMethod): Option<RecoveryPolicy> {
    match kind
    case Fast => Some(RecoveryPolicy(Fast, FastPass(true, 64), TrimPass(true, 1), [BlockPass(true, 16, 2)],
                                     NO_BLOCK_PASS, false, DEFAULT_DEADLINES))
    case Unspecified => Some(BalancedPolicy())
    case Balanced => Some(BalancedPolicy())
    case Gentle => Some(RecoveryPolicy(Gentle, FastPass(true, 32), TrimPass(true, 1), [BlockPass(true, 8, 2)],
                                       BlockPass(true, 1, 3), false, DEFAULT_DEADLINES))
    case OtherMethod => None
  }

  function BalancedPolicy(): RecoveryPolicy {
    RecoveryPolicy(Balanced, FastPass(true, 64), TrimPass(true, 2), [BlockPass(true, 16, 3), BlockPass(true, 4, 4)],
                   BlockPass(true, 1, 6), true, DEFAULT_DEADLINES)
  }

  /** The built-in policies are valid, begin with the fast pass, and read no sector more than 2, 6 or 3 times. */
  lemma BuiltInPolicies(kind: RecoveryMethod)
    requires PolicyForMethod(kind).Some?
    ensures var p := PolicyForMethod(kind).value;
            && p.Valid() && p.fast.enabled
            && p.Limit() == (if kind == Fast then 2 else if kind == Gentle then 3 else 6)
            && (p.finalizeUnresolved <==> kind == Balanced || kind == Unspecified)
  {
    var a, b, c := BlockPass(true, 16, 2), BlockPass(true, 16, 3), BlockPass(true, 4, 4);
    assert [a][..0] == [] && [b, c][..1] == [b] && [b][..0] == [];
    assert AdaptiveLimit([]) == 0;
    assert [BlockPass(true, 8, 2)][..0] == [];
    assert AdaptiveLimit([b]) == 3;
  }

  /** From pass to pass the built-in methods read smaller blocks and allow more attempts. */
  lemma BuiltInPoliciesNarrow(kind: RecoveryMethod)
    requires PolicyForMethod(kind).Some?
    ensures var p := PolicyForMethod(kind).value;
            var blocks := [BlockPass(true, p.fast.blockSectors, 1)] + p.adaptive + if p.targeted.enabled then [p.targeted] else [];
            && p.trim.enabled && p.trim.attemptsLimit <= 2
            && forall i :: 0 < i < |blocks| ==> blocks[i].enabled && blocks[i].blockSectors < blocks[i-1].blockSectors
                                                && blocks[i-1].attemptsLimit < blocks[i].attemptsLimit
  {
  }

  // ----- an explicit retry

  /** addRetryAttemptOffset (recovery_retry.go:25). */
  function AddRetryAttemptOffset(limit: uint16, offset: uint16): (n: uint16)
    ensures n == Min(limit + offset, 0xFFFF)
  {
    if 0xFFFF - limit < offset then 0xFFFF else limit + offset
  }

  /** The most attempts behind any retryable extent. */
  function AttemptOffset(extents: seq<Extent>): (n: uint16)
    ensures forall e :: e in extents && IsRetryableState(e.mark.state) ==> e.mark.attempts <= n
    ensures n == 0 || exists e :: e in extents && IsRetryableState(e.mark.state) && e.mark.attempts == n
  {
    if extents == [] then 0
    else
      var rest, e := AttemptOffset(extents[..|extents|-1]), extents[|extents|-1];
      assert extents == extents[..|extents|-1] + [e];
      if IsRetryableState(e.mark.state) && e.mark.attempts > rest then e.mark.attempts else rest
  }

  function Raised(pass: BlockPass, offset: uint16): BlockPass {
    pass.(attemptsLimit := AddRetryAttemptOffset(pass.attemptsLimit, offset))
  }

  function RaisedAll(passes: seq<BlockPass>, offset: uint16): (r: seq<BlockPass>)
    ensures |r| == |passes| && forall i :: 0 <= i < |r| ==> r[i] == Raised(passes[i], offset)
  {
    seq(|passes|, i requires 0 <= i < |passes| => Raised(passes[i], offset))
  }

  function RetryPolicy(policy: RecoveryPolicy, offset: uint16): RecoveryPolicy {
    if offset == 0 then policy
    else policy.(trim := policy.trim.(attemptsLimit := AddRetryAttemptOffset(policy.trim.attemptsLimit, offset)),
                 adaptive := RaisedAll(policy.adaptive, offset),
                 targeted := Raised(policy.targeted, offset))
  }

  /** retryPolicyWithCurrentAttempts (recovery_retry.go:8). The adaptive passes are raised in the caller's own array. */
  method RetryPolicyWithCurrentAttempts(policy: RecoveryPolicy, adaptive: array<BlockPass>, extents: seq<Extent>) returns (r: RecoveryPolicy)
    requires policy.adaptive == adaptive[..]
    modifies adaptive
    ensures r == RetryPolicy(policy, AttemptOffset(extents)) && adaptive[..] == r.adaptive
    ensures r.trim.attemptsLimit == Min(policy.trim.attemptsLimit + AttemptOffset(extents), 0xFFFF)
    ensures r.targeted.attemptsLimit == Min(policy.targeted.attemptsLimit + AttemptOffset(extents), 0xFFFF)
    ensures forall i :: 0 <= i < adaptive.Length ==>
              adaptive[i].attemptsLimit == Min(old(adaptive[i].attemptsLimit) + AttemptOffset(extents), 0xFFFF)
  {
    var offset: uint16 := 0;
    for i := 0 to |extents|
      invariant offset == AttemptOffset(extents[..i])
    {
      assert extents[..i+1][..i] == extents[..i];
      if IsRetryableState(extents[i].mark.state) && extents[i].mark.attempts > offset {
        offset := extents[i].mark.attempts;
      }
    }
    assert extents[..|extents|] == extents;
    if offset == 0 {
      return policy;
    }
    for i := 0 to adaptive.Length
      invariant forall k :: 0 <= k < i ==> adaptive[k] == Raised(policy.adaptive[k], offset)
      invariant forall k :: i <= k < adaptive.Length ==> adaptive[k] == policy.adaptive[k]
    {
      adaptive[i] := Raised(adaptive[i], offset);
    }
    assert adaptive[..] == RaisedAll(policy.adaptive, offset);
    return policy.(trim := policy.trim.(attemptsLimit := AddRetryAttemptOffset(policy.trim.attemptsLimit, offset)),
                   adaptive := adaptive[..],
                   targeted := Raised(policy.targeted, offset));
  }

  /** Raising keeps a valid policy valid. */
  lemma RetryPolicyIsValid(policy: RecoveryPolicy, offset: uint16)
    requires policy.Valid()
    ensures RetryPolicy(policy, offset).Valid()
  {
    var r := RetryPolicy(policy, offset);
    forall i | 0 <= i < |r.adaptive| && r.adaptive[i].enabled ensures r.adaptive[i].blockSectors != 0 && r.adaptive[i].attemptsLimit != 0 {
      assert policy.adaptive[i].enabled;
    }
  }

  /** A raised policy has room for every retryable extent short of saturation: its attempts are below the limit of every
      pass enabled. */
  lemma RetryLeavesRoom(policy: RecoveryPolicy, extents: seq<Extent>, e: Extent)
    requires policy.Valid() && e in extents && IsRetryableState(e.mark.state) && e.mark.attempts < 0xFFFF
    ensures var r := RetryPolicy(policy, AttemptOffset(extents));
            && (r.trim.enabled ==> e.mark.attempts < r.trim.attemptsLimit)
            && (r.targeted.enabled ==> e.mark.attempts < r.targeted.attemptsLimit)
            && forall i :: 0 <= i < |r.adaptive| && r.adaptive[i].enabled ==> e.mark.attempts < r.adaptive[i].attemptsLimit
  {
    var offset := AttemptOffset(extents);
    var r := RetryPolicy(policy, offset);
    forall i | 0 <= i < |r.adaptive| && r.adaptive[i].enabled ensures e.mark.attempts < r.adaptive[i].attemptsLimit {
      assert policy.adaptive[i].enabled;
      assert offset > 0 ==> r.adaptive[i] == Raised(policy.adaptive[i], offset);
    }
  }

  lemma {:induction false} RaisingKeepsEnabled(passes: seq<BlockPass>, offset: uint16)
    ensures Enabled(RaisedAll(passes, offset)) == Enabled(passes)
  {
    if passes != [] {
      var p := passes[..|passes|-1];
      RaisingKeepsEnabled(p, offset);
      assert RaisedAll(passes, offset)[..|p|] == RaisedAll(p, offset);
    }
  }

  lemma BuiltInRounds(kind: RecoveryMethod)
    requires PolicyForMethod(kind).Some?
    ensures PolicyForMethod(kind).value.Rounds() == (if kind == Fast then 2 else if kind == Gentle then 3 else 4)
  {
    var p := PolicyForMethod(kind).value;
    var n := |p.adaptive|;
    assert p.adaptive[..0] == [];
    EnabledNext(p.adaptive, 0);
    if n == 2 {
      EnabledNext(p.adaptive, 1);
    }
    assert p.adaptive[..n] == p.adaptive;
  }

  /** An explicit retry raises limits and adds no passes, and no built-in policy has more passes behind the fast one
      than its largest limit: a retry that reads a sector once in every pass stays within one policy budget. */
  lemma RetryRoundsWithinBudget(kind: RecoveryMethod, offset: uint16)
    requires PolicyForMethod(kind).Some?
    ensures RetryPolicy(PolicyForMethod(kind).value, offset).Rounds() == PolicyForMethod(kind).value.Rounds()
    ensures PolicyForMethod(kind).value.Rounds() <= PolicyForMethod(kind).value.Limit()
  {
    hide PolicyForMethod;
    var p := PolicyForMethod(kind).value;
    RaisingKeepsEnabled(p.adaptive, offset);
    BuiltInRounds(kind);
    BuiltInPolicies(kind);
  }
}
