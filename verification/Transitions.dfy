/** Sector states, confidence levels and the rules by which one mark may replace another
    (internal/mapfile/format.go, internal/mapfile/transitions.go). */
module Transitions {
  import opened Prelude

  // States and confidences are bytes in the map file, so values outside the named ones exist and are rejected.
  const UNKNOWN: uint8 := 0
  const QUEUED: uint8 := 1
  const READ_UNVERIFIED: uint8 := 2
  const VERIFIED: uint8 := 3
  const MISSING: uint8 := 4
  const IO_ERROR: uint8 := 5
  const CHECKSUM_ERROR: uint8 := 6
  const CONFLICTING: uint8 := 7
  const RECONSTRUCTED: uint8 := 8
  const SKIPPED: uint8 := 9

  const NO_CONFIDENCE: uint8 := 0
  const SINGLE_READ: uint8 := 1
  const REPEATED_SINGLE_CAPTURE: uint8 := 2
  const REPEATED_INDEPENDENT_CAPTURE: uint8 := 3
  const TRUSTED_CHECKSUM: uint8 := 4
  const RECONSTRUCTED_CHECKSUM: uint8 := 5

  type Hash = s: seq<uint8> | |s| == 16 witness [0, 0, 0, 0, 0, 0, 0, 0, 0, 0, 0, 0, 0, 0, 0, 0]

  const NO_HASH: Hash := [0, 0, 0, 0, 0, 0, 0, 0, 0, 0, 0, 0, 0, 0, 0, 0]

  /** Everything a map entry says about one sector: the fields of an extent other than its range. */
  datatype Mark = Mark(state: uint8, confidence: uint8, attempts: uint16, capture: uint32,
                       senseKey: uint8, asc: uint8, ascq: uint8, hash: Hash)
  {
    predicate ClaimsData() {
      StateClaimsData(state)
    }
  }

  function PlainMark(state: uint8, confidence: uint8, attempts: uint16): Mark {
    Mark(state, confidence, attempts, 0, 0, 0, 0, NO_HASH)
  }

  predicate Claims(m: Option<Mark>) {
    m.Some? && m.value.ClaimsData()
  }

  predicate StateClaimsData(state: uint8) {
    state == READ_UNVERIFIED || state == VERIFIED || state == CHECKSUM_ERROR ||
    state == CONFLICTING || state == RECONSTRUCTED
  }

  predicate ValidStateConfidence(state: uint8, confidence: uint8) {
    && state <= SKIPPED
    && confidence <= RECONSTRUCTED_CHECKSUM
    && if state == READ_UNVERIFIED then confidence == SINGLE_READ
       else if state == VERIFIED then REPEATED_SINGLE_CAPTURE <= confidence <= TRUSTED_CHECKSUM
       else if state == RECONSTRUCTED then confidence == RECONSTRUCTED_CHECKSUM
       else confidence == NO_CONFIDENCE
  }

  predicate ValidTransition(state: uint8, confidence: uint8, nextState: uint8, nextConfidence: uint8) {
    && ValidStateConfidence(state, confidence)
    && ValidStateConfidence(nextState, nextConfidence)
    && !(nextState == state && nextConfidence < confidence)
    && !(StateClaimsData(state) && !StateClaimsData(nextState))
    && !(state == VERIFIED && nextState == READ_UNVERIFIED)
    && !(state == RECONSTRUCTED && nextConfidence < confidence)
    && !(state == CONFLICTING && nextState == READ_UNVERIFIED)
  }

  /** The test ApplyExtent makes of every extent the candidate overlaps. */
  predicate MayReplace(current: Mark, next: Mark) {
    && current.attempts <= next.attempts
    && ValidTransition(current.state, current.confidence, next.state, next.confidence)
  }

  predicate ValidMark(m: Mark) {
    ValidStateConfidence(m.state, m.confidence)
  }

  /** What one or more accepted replacements can never undo. */
  predicate Advances(before: Option<Mark>, after: Option<Mark>) {
    before.Some? ==>
      && after.Some?
      && before.value.attempts <= after.value.attempts
      && (before.value.ClaimsData() ==> after.value.ClaimsData())
      && (before.value.state == RECONSTRUCTED ==> after.value.state == RECONSTRUCTED)
  }

  /** The confidence levels each state goes with. */
  function Levels(state: uint8): set<uint8> {
    if state == READ_UNVERIFIED then {SINGLE_READ}
    else if state == VERIFIED then {REPEATED_SINGLE_CAPTURE, REPEATED_INDEPENDENT_CAPTURE, TRUSTED_CHECKSUM}
    else if state == RECONSTRUCTED then {RECONSTRUCTED_CHECKSUM}
    else if state in {UNKNOWN, QUEUED, MISSING, IO_ERROR, CHECKSUM_ERROR, CONFLICTING, SKIPPED} then {NO_CONFIDENCE}
    else {}
  }

  /** What the rules come to, state by state: from where nothing is claimed everything is open; an unverified read and a
      checksum error lead to every state with data; a conflict is not resolved by a mere read; a verified sector may be
      found wrong, contradicted or reconstructed, or verified no worse; and nothing follows a reconstruction but another. */
  function Successors(state: uint8): set<uint8> {
    if state in {UNKNOWN, QUEUED, MISSING, IO_ERROR, SKIPPED} then
      {UNKNOWN, QUEUED, READ_UNVERIFIED, VERIFIED, MISSING, IO_ERROR, CHECKSUM_ERROR, CONFLICTING, RECONSTRUCTED, SKIPPED}
    else if state in {READ_UNVERIFIED, CHECKSUM_ERROR} then {READ_UNVERIFIED, VERIFIED, CHECKSUM_ERROR, CONFLICTING, RECONSTRUCTED}
    else if state in {VERIFIED, CONFLICTING} then {VERIFIED, CHECKSUM_ERROR, CONFLICTING, RECONSTRUCTED}
    else if state == RECONSTRUCTED then {RECONSTRUCTED}
    else {}
  }

  lemma ReplacementIff(current: Mark, next: Mark)
    ensures ValidMark(current) <==> current.confidence in Levels(current.state)
    ensures MayReplace(current, next) <==>
              && ValidMark(current) && ValidMark(next) && current.attempts <= next.attempts
              && next.state in Successors(current.state)
              && (current.state == next.state == VERIFIED ==> current.confidence <= next.confidence)
  {
  }
}
