/** The trim scheduler (internal/recovery/trim_pass.go): two cursors move into an unresolved range from its ends, by
    small clusters until one fails, then sector by sector until the failure budget is spent. */
module TrimScheduling {
  import opened Prelude
  import opened Transitions
  import opened Extents
  import opened Sums
  import opened Requests
  import Bisection

  datatype Mode = LeftCluster | LeftSingle | RightCluster | RightSingle | Done

  datatype State = State(target: Extent, smallCluster: uint32, failureBudget: uint16, left: uint64, right: uint64, mode: Mode,
                         active: Option<Request>, leftStreak: uint16, rightStreak: uint16)

  datatype Decision = Read(request: Request) | Wait | Finished

  datatype TrimError = BadTarget | BadCluster | BadBudget | StillActive | NothingActive | WrongRequest | BadMode

  predicate Parameters(target: Extent, smallCluster: uint32, failureBudget: uint16) {
    target.Valid() && Bisection.Schedulable(target.mark.state) && smallCluster != 0 && failureBudget != 0
  }

  /** StartTrimPass (trim_pass.go:51). */
  function StartTrimPass(target: Extent, smallCluster: uint32, failureBudget: uint16): Result<State, TrimError> {
    if !target.Valid() || !Bisection.Schedulable(target.mark.state) then Err(BadTarget)
    else if smallCluster == 0 then Err(BadCluster)
    else if failureBudget == 0 then Err(BadBudget)
    else Ok(State(target, smallCluster, failureBudget, target.start, Wrap64(target.End()), LeftCluster, None, 0, 0))
  }

  function ClusterSpan(s: State): uint32
    requires s.left < s.right
  {
    var sectors := Wrap32(s.right - s.left);
    if sectors > s.smallCluster then s.smallCluster else sectors
  }

  /** nextTrimPassRequest (trim_pass.go:179). */
  function NextRequest(s: State): Option<Request> {
    if s.left >= s.right then None
    else match s.mode
      case LeftCluster => Some(Request(s.left, ClusterSpan(s)))
      case LeftSingle => Some(Request(s.left, 1))
      case RightCluster => Some(Request(Wrap64(s.right - ClusterSpan(s) + TWO_64), ClusterSpan(s)))
      case RightSingle => Some(Request(s.right - 1, 1))
      case Done => None
  }

  /** DispatchTrimPass (trim_pass.go:75). */
  function DispatchTrimPass(s: State, writerAvailable: bool): (State, Result<Decision, TrimError>) {
    if !s.target.Valid() then (s, Err(BadTarget))
    else if s.smallCluster == 0 then (s, Err(BadCluster))
    else if s.failureBudget == 0 then (s, Err(BadBudget))
    else if s.active.Some? then (s, Err(StillActive))
    else if s.mode == Done then (s, Ok(Finished))
    else if !writerAvailable then (s, Ok(Wait))
    else
      var request := NextRequest(s);
      if request.None? then (s.(mode := Done), Ok(Finished))
      else (s.(active := request), Ok(Read(request.value)))
  }

  /** finishOrContinueTrim (trim_pass.go:206). */
  function FinishOrContinue(s: State, preferred: Mode): State {
    s.(mode := if s.left >= s.right then Done else preferred)
  }

  /** ResolveTrimPass (trim_pass.go:107). */
  function ResolveTrimPass(s: State, request: Request, success: bool): Result<State, TrimError> {
    if s.active.None? then Err(NothingActive)
    else if request != s.active.value then Err(WrongRequest)
    else
      var next := s.(active := None);
      match s.mode
      case LeftCluster =>
        if success then Ok(FinishOrContinue(next.(left := Wrap64(s.left + request.sectors)), LeftCluster))
        else Ok(next.(mode := LeftSingle, leftStreak := 0))
      case LeftSingle =>
        if success then Ok(FinishOrContinue(next.(left := Wrap64(s.left + 1), leftStreak := 0), LeftSingle))
        else
          var streak := Wrap16(s.leftStreak + 1);
          if streak >= s.failureBudget then
            var mode := if s.left >= s.right then Done else RightCluster;
            Ok(FinishOrContinue(next.(mode := mode, leftStreak := 0), mode))
          else Ok(FinishOrContinue(next.(leftStreak := streak), LeftSingle))
      case RightCluster =>
        if success then Ok(FinishOrContinue(next.(right := Wrap64(s.right - request.sectors + TWO_64)), RightCluster))
        else Ok(next.(mode := RightSingle, rightStreak := 0))
      case RightSingle =>
        if success then Ok(FinishOrContinue(next.(right := Wrap64(s.right - 1 + TWO_64), rightStreak := 0), RightSingle))
        else
          var streak := Wrap16(s.rightStreak + 1);
          if streak >= s.failureBudget then Ok(FinishOrContinue(next.(mode := Done, rightStreak := 0), Done))
          else Ok(FinishOrContinue(next.(rightStreak := streak), RightSingle))
      case Done => Err(BadMode)
  }

  /** RemainingTrimInterior (trim_pass.go:169). */
  function RemainingInterior(s: State): Option<Extent> {
    if s.left >= s.right then None
    else Some(s.target.(start := s.left, sectors := Wrap32(s.right - s.left)))
  }

  // ----- what holds throughout

  ghost predicate Invariant(s: State) {
    && Parameters(s.target, s.smallCluster, s.failureBudget)
    && s.target.start <= s.left <= s.right <= s.target.End()
    && s.leftStreak < s.failureBudget && s.rightStreak < s.failureBudget
    && (s.mode != Done ==> s.left < s.right)
    && (s.active.Some? ==> s.active == NextRequest(s))
  }

  /** The successful requests tile the target outside the cursors, each sector once. */
  ghost predicate Accounted(s: State, successes: seq<Request>) {
    forall lba: nat :: Sum(Covering(lba), successes) == if s.target.Covers(lba) && !(s.left <= lba < s.right) then 1 else 0
  }

  function Rank(m: Mode): nat {
    match m case LeftCluster => 4 case LeftSingle => 3 case RightCluster => 2 case RightSingle => 1 case Done => 0
  }

  function Left(s: State): nat
    requires s.leftStreak <= s.failureBudget && s.rightStreak <= s.failureBudget
  {
    if s.mode == LeftSingle then s.failureBudget - s.leftStreak
    else if s.mode == RightSingle then s.failureBudget - s.rightStreak
    else 0
  }

  lemma StartKeepsInvariant(target: Extent, smallCluster: uint32, failureBudget: uint16)
    ensures StartTrimPass(target, smallCluster, failureBudget).Ok? <==> Parameters(target, smallCluster, failureBudget)
    ensures StartTrimPass(target, smallCluster, failureBudget).Ok? ==>
              var s := StartTrimPass(target, smallCluster, failureBudget).value;
              Invariant(s) && s.active.None? && s.target == target && s.failureBudget == failureBudget
              && s.mode == LeftCluster && Accounted(s, [])
  {
    hide Wrap64;
    if target.Valid() {
      Fits(target.End());
    }
  }

  /** While the pass is not done there is a request, inside what remains and touching the cursor of its side. */
  lemma RequestInside(s: State)
    requires Invariant(s) && s.mode != Done
    ensures NextRequest(s).Some?
    ensures var r := NextRequest(s).value;
            && 0 < r.sectors && s.left <= r.start && r.start + r.sectors <= s.right
            && (if s.mode == LeftCluster || s.mode == LeftSingle then r.start == s.left else r.start + r.sectors == s.right)
            && (s.mode == LeftSingle || s.mode == RightSingle ==> r.sectors == 1)
            && (s.mode == LeftCluster || s.mode == RightCluster ==> r.sectors == Min(s.smallCluster, s.right - s.left))
  {
    hide Wrap64, Wrap32;
    Fits(s.right - s.left);
    Fits(s.right - ClusterSpan(s));
  }

  lemma DispatchKeepsInvariant(s: State, writerAvailable: bool)
    requires Invariant(s) && s.active.None?
    ensures var (next, r) := DispatchTrimPass(s, writerAvailable);
            && Invariant(next) && r.Ok? && next.left == s.left && next.right == s.right && next.target == s.target
            && (r.value.Read? ==> next == s.(active := Some(r.value.request)))
            && (writerAvailable ==> (r.value.Read? <==> s.mode != Done))
            && (!r.value.Read? ==> next == s)
  {
    hide NextRequest;
    if s.mode != Done {
      RequestInside(s);
    }
    if writerAvailable && s.mode != Done {
      SameRequest(s, NextRequest(s));
    }
  }

  lemma SameRequest(s: State, active: Option<Request>)
    ensures NextRequest(s.(active := active)) == NextRequest(s)
  {
  }

  /** One of the cursors has moved over exactly the range of the request. */
  predicate Passed(s: State, r: Request, next: State) {
    || (r.start == s.left && next.left == r.start + r.sectors && next.right == s.right)
    || (r.start + r.sectors == s.right && next.right == r.start && next.left == s.left)
  }

  /** One answered request: a success moves a cursor over exactly its range, a failure only lowers the measure. */
  lemma ResolveStep(s: State, success: bool)
    requires Invariant(s) && s.active.Some? && s.mode != Done
    ensures ResolveTrimPass(s, s.active.value, success).Ok?
    ensures var next, r := ResolveTrimPass(s, s.active.value, success).value, s.active.value;
            && Invariant(next) && next.active.None? && next.target == s.target && next.failureBudget == s.failureBudget
            && s.left <= next.left <= next.right <= s.right
            && (success ==> Passed(s, r, next))
            && (!success ==> next.left == s.left && next.right == s.right)
            && (next.right - next.left < s.right - s.left ||
                (next.right - next.left == s.right - s.left &&
                   (Rank(next.mode) < Rank(s.mode) || (Rank(next.mode) == Rank(s.mode) && Left(next) < Left(s)))))
  {
    if success {
      ResolveSuccess(s);
    } else {
      ResolveFailure(s);
    }
  }

  lemma ResolveSuccess(s: State)
    requires Invariant(s) && s.active.Some? && s.mode != Done
    ensures ResolveTrimPass(s, s.active.value, true).Ok?
    ensures var next, r := ResolveTrimPass(s, s.active.value, true).value, s.active.value;
            && Invariant(next) && next.active.None? && next.target == s.target && next.failureBudget == s.failureBudget
            && s.left <= next.left <= next.right <= s.right && Passed(s, r, next)
            && next.right - next.left < s.right - s.left
  {
    hide NextRequest, Wrap64, Wrap32, Wrap16;
    RequestInside(s);
    var r := s.active.value;
    Fits(s.left + r.sectors);
    Fits(s.left + 1);
    Fits(s.right - r.sectors);
    Fits(s.right - 1);
  }

  lemma ResolveFailure(s: State)
    requires Invariant(s) && s.active.Some? && s.mode != Done
    ensures ResolveTrimPass(s, s.active.value, false).Ok?
    ensures var next := ResolveTrimPass(s, s.active.value, false).value;
            && Invariant(next) && next.active.None? && next.target == s.target && next.failureBudget == s.failureBudget
            && next.left == s.left && next.right == s.right
            && (Rank(next.mode) < Rank(s.mode) || (Rank(next.mode) == Rank(s.mode) && Left(next) < Left(s)))
  {
    hide NextRequest, Wrap64, Wrap32, Wrap16;
    RequestInside(s);
    Fits(s.leftStreak + 1);
    Fits(s.rightStreak + 1);
  }

  lemma AccountedStep(s: State, next: State, successes: seq<Request>, r: Request, success: bool)
    requires Invariant(s) && Invariant(next) && Accounted(s, successes) && next.target == s.target
    requires s.left <= r.start && r.start + r.sectors <= s.right && s.left <= next.left <= next.right <= s.right
    requires success ==> Passed(s, r, next)
    requires !success ==> next.left == s.left && next.right == s.right
    ensures Accounted(next, if success then successes + [r] else successes)
  {
    hide Sum;
    if success {
      forall lba: nat
        ensures Sum(Covering(lba), successes + [r]) == if next.target.Covers(lba) && !(next.left <= lba < next.right) then 1 else 0
      {
        SumConcat(Covering(lba), successes, [r]);
        SumOne(Covering(lba), r);
        assert Sum(Covering(lba), successes) == if s.target.Covers(lba) && !(s.left <= lba < s.right) then 1 else 0;
      }
    }
  }

  function FailedAt(lba: int): Request -> nat {
    (r: Request) => if r.start == lba && r.sectors == 1 then 1 else 0
  }

  /** A side is given up only when single reads of the sector at its cursor have failed as often as the budget says. */
  ghost predicate Spent(s: State, failures: seq<Request>) {
    && (s.mode == LeftSingle ==> s.leftStreak <= Sum(FailedAt(s.left), failures))
    && (s.mode == RightCluster || s.mode == RightSingle || (s.mode == Done && s.left < s.right) ==>
          s.failureBudget <= Sum(FailedAt(s.left), failures))
    && (s.mode == RightSingle ==> s.rightStreak <= Sum(FailedAt(s.right - 1), failures))
    && (s.mode == Done && s.left < s.right ==> s.failureBudget <= Sum(FailedAt(s.right - 1), failures))
  }

  lemma SpentStep(s: State, failures: seq<Request>, success: bool)
    requires Invariant(s) && s.active.Some? && s.mode != Done && Spent(s, failures)
    requires ResolveTrimPass(s, s.active.value, success).Ok?
    ensures Spent(ResolveTrimPass(s, s.active.value, success).value, if success then failures else failures + [s.active.value])
  {
    hide NextRequest, Wrap64, Wrap32, Wrap16, Sum;
    RequestInside(s);
    var r := s.active.value;
    Fits(s.left + r.sectors);
    Fits(s.left + 1);
    Fits(s.right - r.sectors);
    Fits(s.right - 1);
    Fits(s.leftStreak + 1);
    Fits(s.rightStreak + 1);
    SumConcat(FailedAt(s.left), failures, [r]);
    SumConcat(FailedAt(s.right - 1), failures, [r]);
    SumOne(FailedAt(s.left), r);
    SumOne(FailedAt(s.right - 1), r);
  }

  /** Any client of the scheduler: it always ends, and then every sector of the target is covered by exactly one
      successful request or lies in the interior that remains, at both ends of which single reads have failed as often
      as the budget says. */
  method DriveTrimPass(target: Extent, smallCluster: uint32, failureBudget: uint16)
    returns (r: Result<State, TrimError>, successes: seq<Request>, failures: seq<Request>)
    ensures r.Ok? <==> Parameters(target, smallCluster, failureBudget)
    ensures r.Ok? ==> r.value.mode == Done && r.value.target == target && Accounted(r.value, successes)
    ensures r.Ok? ==> match RemainingInterior(r.value)
                      case None => forall lba: nat :: target.Covers(lba) ==> Sum(Covering(lba), successes) == 1
                      case Some(rest) => rest.mark == target.mark && forall lba: nat :: target.Covers(lba) ==>
                        (rest.Covers(lba) <==> Sum(Covering(lba), successes) == 0)
    ensures r.Ok? && RemainingInterior(r.value).Some? ==>
              var rest := RemainingInterior(r.value).value;
              failureBudget <= Sum(FailedAt(rest.start), failures) && failureBudget <= Sum(FailedAt(rest.End() - 1), failures)
  {
    hide Sum, NextRequest, ResolveTrimPass, DispatchTrimPass, StartTrimPass, Wrap32;
    successes, failures := [], [];
    StartKeepsInvariant(target, smallCluster, failureBudget);
    r := StartTrimPass(target, smallCluster, failureBudget);
    if r.Err? {
      return;
    }
    var s := r.value;
    while s.mode != Done
      invariant Invariant(s) && s.active.None? && s.target == target && s.failureBudget == failureBudget
      invariant Accounted(s, successes) && Spent(s, failures)
      decreases s.right - s.left, Rank(s.mode), Left(s)
    {
      DispatchKeepsInvariant(s, true);
      RequestInside(s);
      var (middle, decision) := DispatchTrimPass(s, true);
      var request := decision.value.request;
      var success: bool := *;
      SameRequest(s, middle.active);
      RequestInside(middle);
      ResolveStep(middle, success);
      SpentStep(middle, failures, success);
      var next := ResolveTrimPass(middle, request, success).value;
      AccountedStep(middle, next, successes, request, success);
      if success {
        successes := successes + [request];
      } else {
        failures := failures + [request];
      }
      s := next;
    }
    Fits(s.right - s.left);
    return Ok(s), successes, failures;
  }
}
