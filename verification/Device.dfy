/** The device as the passes see it: any outcome of any read (internal/platform/recovery_read.go). */
module Devices {
  import opened Prelude
  import opened Persistence
  import opened Runs

  datatype RunError = BadPolicy | BadGeometry | Canceled | FatalRead(cause: ReadError) | PersistFailed(cause_: PersistError)

  /** readSucceeded (recovery_read.go:50). */
  predicate ReadSucceeded(n: int, expected: int, error: Option<ReadError>) {
    n == expected && (error.None? || error.value == EndOfFile)
  }

  /** fatalRecoveryReadError (recovery_read.go:28). */
  function FatalReadError(error: Option<ReadError>): Option<RunError> {
    if error.None? then None
    else match error.value
      case StopRequested => Some(Canceled)
      case Permission => Some(FatalRead(Permission))
      case NotExist => Some(FatalRead(NotExist))
      case SourceLost => Some(FatalRead(SourceLost))
      case _ => None
  }

  /** How a pass may end: because the context was canceled or the last read met one of the errors that end a run; because
      the storage failed or the map could take no more records; or because a block is larger than what may wait for a
      checkpoint. It never ends because the map rejected an extent. */
  ghost predicate Excused(e: Option<RunError>, p: RecoveryPersistence, d: Device)
    reads p.store, p.store.medium, d
  {
    match e
    case None => true
    case Some(BadPolicy) => false
    case Some(BadGeometry) => false
    case Some(Canceled) => d.stopped || d.LastError() == Some(StopRequested)
    case Some(FatalRead(cause)) => d.LastError() == Some(cause) && cause in {Permission, NotExist, SourceLost}
    case Some(PersistFailed(cause)) =>
      && p.Failing(cause) && cause != EmptyPayload && !(cause.MapFailed? && cause.store.Rejected?)
      && (cause == PayloadTooBig ==> d.trace != [] && |d.trace[|d.trace|-1].buffer| > MAX_PENDING_BYTES)
  }

  class Device {
    ghost var trace: seq<Read>

    /** Whether the context of the run has been seen canceled. */
    ghost var stopped: bool

    constructor ()
      ensures trace == [] && !stopped
    {
      trace, stopped := [], false;
    }

    ghost function LastError(): Option<ReadError>
      reads this
    {
      if trace == [] then None else trace[|trace|-1].error
    }

    /** The context of a run may be canceled at any moment. */
    method Cancelled() returns (c: bool)
      modifies this`stopped
      ensures stopped == (old(stopped) || c)
    {
      c := *;
      stopped := stopped || c;
    }

    /** ReadAt with any count, any error and any bytes; all of it is remembered. */
    method ReadAt(size: nat, offset: nat, ghost start: nat, ghost sectors: nat) returns (n: int, error: Option<ReadError>, buffer: bytes)
      modifies this`trace
      ensures |buffer| == size
      ensures trace == old(trace) + [Read(start, sectors, offset, n, error, buffer)]
    {
      n, error := *, *;
      buffer :| |buffer| == size by {
        assert |seq(size, _ => 0)| == size;
      }
      trace := trace + [Read(start, sectors, offset, n, error, buffer)];
    }
  }
}
