/** Read requests as the schedulers issue them (internal/recovery/scheduler.go). */
module Requests {
  import opened Prelude

  datatype Request = Request(start: uint64, sectors: uint32)

  /** Counts a request for each sector it covers. */
  function Covering(lba: nat): Request -> nat {
    (r: Request) => if r.start <= lba < r.start + r.sectors then 1 else 0
  }
}
