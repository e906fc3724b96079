/** Journal records: a type, a sequence number, a length, a payload and a checksum
    (internal/mapfile/journal.go, journal_codec.go). */
module JournalCodec {
  import opened Prelude
  import opened Extents
  import opened LittleEndian
  import opened Crc32c
  import opened ExtentCodec

  const MAX_PAYLOAD := 0x10_0000
  const FRAME_BYTES := 18

  /** The program's record types are strings; every string outside the named ones is Unnamed. */
  datatype RecordType =
    | JobCreated | CaptureOpened | PassStarted | DataWritten | ExtentStateChanged | ErrorRecorded
    | MediaReidentified | CheckpointCommitted | PassFinished | JobStopped | JobCompleted | Unnamed(name: string)

  datatype JournalRecord = JournalRecord(kind: RecordType, sequence: uint64, extent: Option<Extent>, payload: bytes)

  function TypeCode(kind: RecordType): uint16 {
    match kind
    case JobCreated => 1
    case CaptureOpened => 2
    case PassStarted => 3
    case DataWritten => 4
    case ExtentStateChanged => 5
    case ErrorRecorded => 6
    case MediaReidentified => 7
    case CheckpointCommitted => 8
    case PassFinished => 9
    case JobStopped => 10
    case JobCompleted => 11
    case Unnamed(_) => 0
  }

  function DecodeType(code: uint16): Result<RecordType, CodecError> {
    if code == 1 then Ok(JobCreated)
    else if code == 2 then Ok(CaptureOpened)
    else if code == 3 then Ok(PassStarted)
    else if code == 4 then Ok(DataWritten)
    else if code == 5 then Ok(ExtentStateChanged)
    else if code == 6 then Ok(ErrorRecorded)
    else if code == 7 then Ok(MediaReidentified)
    else if code == 8 then Ok(CheckpointCommitted)
    else if code == 9 then Ok(PassFinished)
    else if code == 10 then Ok(JobStopped)
    else if code == 11 then Ok(JobCompleted)
    else Err(UnknownType)
  }

  function PayloadBytes(r: JournalRecord): Result<bytes, CodecError> {
    match r.extent
    case Some(e) => if e.Valid() then Ok(ExtentBytes(e)) else Err(BadExtent)
    case None => Ok(r.payload)
  }

  function ValidateRecord(r: JournalRecord): Option<CodecError> {
    if r.sequence == 0 then Some(ZeroSequence)
    else
      match PayloadBytes(r)
      case Err(e) => Some(e)
      case Ok(p) => if |p| > MAX_PAYLOAD then Some(PayloadTooLong) else None
  }

  function Body(code: uint16, sequence: uint64, payload: bytes): (b: bytes)
    ensures |b| == 14 + |payload|
  {
    LE(code, 2) + LE(sequence, 8) + LE(|payload|, 4) + payload
  }

  /** A record as it lies in the file. */
  function Frame(code: uint16, sequence: uint64, payload: bytes): (b: bytes)
    ensures |b| == FRAME_BYTES + |payload|
  {
    Body(code, sequence, payload) + LE(Checksum(Body(code, sequence, payload)), 4)
  }

  function Marshal(r: JournalRecord): Result<bytes, CodecError> {
    match ValidateRecord(r)
    case Some(e) => Err(e)
    case None => Ok(Frame(TypeCode(r.kind), r.sequence, PayloadBytes(r).value))
  }

  method MarshalJournalRecord(r: JournalRecord) returns (encoded: Result<bytes, CodecError>)
    ensures encoded == Marshal(r)
  {
    hide Checksum, LE, ExtentBytes;
    var invalid := ValidateRecord(r);
    if invalid.Some? {
      return Err(invalid.value);
    }
    var payload := PayloadBytes(r).value;
    var buffer := new uint8[FRAME_BYTES + |payload|];
    PutLE(buffer, 0, 2, TypeCode(r.kind));
    PutLE(buffer, 2, 8, r.sequence);
    PutLE(buffer, 10, 4, |payload|);
    CopyInto(buffer, 14, payload);
    assert buffer[..14 + |payload|] == Body(TypeCode(r.kind), r.sequence, payload);
    PutLE(buffer, 14 + |payload|, 4, Checksum(buffer[..14 + |payload|]));
    assert buffer[..] == buffer[..FRAME_BYTES + |payload|];
    return Ok(buffer[..]);
  }

  /** UnmarshalJournalRecord (journal_codec.go:28): the record at the front of the bytes and its length. */
  function Unmarshal(b: bytes): (r: Result<(JournalRecord, nat), CodecError>)
    ensures r.Ok? ==> FRAME_BYTES <= r.value.1 <= |b|
  {
    if |b| < FRAME_BYTES then Err(Truncated)
    else
      var length := Read32(b[10..14]);
      if |b| < FRAME_BYTES + length then Err(Truncated)
      else if length > MAX_PAYLOAD then Err(PayloadTooLong)
      else
        match DecodeFrame(b[..FRAME_BYTES + length])
        case Err(e) => Err(e)
        case Ok(r) => Ok((r, FRAME_BYTES + length))
  }

  function DecodeFrame(f: bytes): Result<JournalRecord, CodecError>
    requires FRAME_BYTES <= |f|
  {
    if Read32(f[|f|-4..]) != Checksum(f[..|f|-4]) then Err(BadChecksum)
    else
      match DecodeType(Read16(f[0..2]))
      case Err(e) => Err(e)
      case Ok(kind) => Decoded(kind, Read64(f[2..10]), f[14..|f|-4])
  }

  function Decoded(kind: RecordType, sequence: uint64, payload: bytes): Result<JournalRecord, CodecError> {
    if kind == ExtentStateChanged then
      match UnmarshalExtent(payload)
      case Err(e) => Err(e)
      case Ok(x) => Checked(JournalRecord(kind, sequence, Some(x), []))
    else Checked(JournalRecord(kind, sequence, None, payload))
  }

  function Checked(r: JournalRecord): Result<JournalRecord, CodecError> {
    match ValidateRecord(r)
    case Some(e) => Err(e)
    case None => Ok(r)
  }

  // ----- the codec's laws

  lemma FrameFields(code: uint16, sequence: uint64, payload: bytes)
    requires |payload| <= MAX_PAYLOAD
    ensures var f := Frame(code, sequence, payload);
            && Read16(f[0..2]) == code && Read64(f[2..10]) == sequence && Read32(f[10..14]) == |payload|
            && f[14..|f|-4] == payload
            && Read32(f[|f|-4..]) == Checksum(f[..|f|-4])
  {
    var body := Body(code, sequence, payload);
    var crc := LE(Checksum(body), 4);
    var f := body + crc;
    Numbers(code, |payload|, sequence);
    Numbers(code, Checksum(body), sequence);
    assert f[..|body|] == body;
    assert f[|body|..] == crc;
    assert f[0..2] == body[0..2] == LE(code, 2);
    assert f[2..10] == body[2..10] == LE(sequence, 8);
    assert f[10..14] == body[10..14] == LE(|payload|, 4);
    assert f[14..|body|] == body[14..] == payload;
  }

  lemma FrameOfFields(f: bytes)
    requires FRAME_BYTES <= |f|
    requires Read32(f[10..14]) == |f| - FRAME_BYTES
    requires Read32(f[|f|-4..]) == Checksum(f[..|f|-4])
    ensures f == Frame(Read16(f[0..2]), Read64(f[2..10]), f[14..|f|-4])
  {
    hide Checksum, LE, FromLE;
    LEOfFromLE(f[0..2]);
    LEOfFromLE(f[2..10]);
    LEOfFromLE(f[10..14]);
    LEOfFromLE(f[|f|-4..]);
    assert f[..|f|-4] == f[0..2] + f[2..10] + f[10..14] + f[14..|f|-4];
    assert f[..|f|-4] == Body(Read16(f[0..2]), Read64(f[2..10]), f[14..|f|-4]);
    assert f == f[..|f|-4] + f[|f|-4..];
  }

  /** What Unmarshal makes of an encoded record, whatever follows it. */
  lemma UnmarshalOfFrame(code: uint16, sequence: uint64, payload: bytes, tail: bytes)
    requires |payload| <= MAX_PAYLOAD
    ensures Unmarshal(Frame(code, sequence, payload) + tail) ==
            match DecodeType(code)
            case Err(e) => Err(e)
            case Ok(kind) =>
              match Decoded(kind, sequence, payload)
              case Err(e) => Err(e)
              case Ok(r) => Ok((r, FRAME_BYTES + |payload|))
  {
    FrameFields(code, sequence, payload);
    var f := Frame(code, sequence, payload);
    assert (f + tail)[10..14] == f[10..14];
    assert (f + tail)[..|f|] == f;
  }

  lemma DecodeOfTypeCode(kind: RecordType)
    ensures DecodeType(TypeCode(kind)) == if kind.Unnamed? then Err(UnknownType) else Ok(kind)
  {
  }

  /** The record a reader gets back: extents travel as payloads and are decoded for one record type only. */
  function AsRead(r: JournalRecord): JournalRecord
    requires PayloadBytes(r).Ok?
  {
    var p := PayloadBytes(r).value;
    if r.kind == ExtentStateChanged && UnmarshalExtent(p).Ok?
    then JournalRecord(r.kind, r.sequence, Some(UnmarshalExtent(p).value), [])
    else JournalRecord(r.kind, r.sequence, None, p)
  }

  /** A record that can be written can be read back exactly when its type has a code of its own and, for an
      extent transition, its payload is an extent. */
  lemma WrittenRecordReadsBackIff(r: JournalRecord, tail: bytes)
    requires Marshal(r).Ok?
    ensures Unmarshal(Marshal(r).value + tail).Ok? <==>
              !r.kind.Unnamed? && (r.kind == ExtentStateChanged ==> UnmarshalExtent(PayloadBytes(r).value).Ok?)
    ensures Unmarshal(Marshal(r).value + tail).Ok? ==>
              Unmarshal(Marshal(r).value + tail).value == (AsRead(r), |Marshal(r).value|)
    ensures r.kind == ExtentStateChanged && r.extent.Some? && r.payload == [] ==>
              Unmarshal(Marshal(r).value + tail) == Ok((r, |Marshal(r).value|))
  {
    var p := PayloadBytes(r).value;
    UnmarshalOfFrame(TypeCode(r.kind), r.sequence, p, tail);
    DecodeOfTypeCode(r.kind);
    if UnmarshalExtent(p).Ok? {
      ExtentRoundTrip(UnmarshalExtent(p).value, p);
    }
    if r.extent.Some? {
      ExtentRoundTrip(r.extent.value, p);
    }
  }

  /** Whatever decodes re-encodes to exactly the bytes consumed. */
  lemma ReadRecordRewrites(b: bytes)
    requires Unmarshal(b).Ok?
    ensures var (r, n) := Unmarshal(b).value;
            FRAME_BYTES <= n <= |b| && Marshal(r) == Ok(b[..n]) && r.sequence != 0
  {
    hide Frame, Checksum, Decoded, Marshal;
    var (r, n) := Unmarshal(b).value;
    var f := b[..n];
    assert f[10..14] == b[10..14];
    FrameOfFields(f);
    DecodedRewrites(Read16(f[0..2]), Read64(f[2..10]), f[14..n-4]);
  }

  lemma DecodedRewrites(code: uint16, sequence: uint64, payload: bytes)
    requires |payload| <= MAX_PAYLOAD
    requires DecodeType(code).Ok? && Decoded(DecodeType(code).value, sequence, payload).Ok?
    ensures var r := Decoded(DecodeType(code).value, sequence, payload).value;
            Marshal(r) == Ok(Frame(code, sequence, payload)) && r.sequence == sequence != 0
  {
    var r := Decoded(DecodeType(code).value, sequence, payload).value;
    if r.kind == ExtentStateChanged {
      ExtentRoundTrip(UnmarshalExtent(payload).value, payload);
    }
    assert TypeCode(r.kind) == code;
  }

  /** Every proper prefix of an encoded record reads as truncated. */
  lemma ProperPrefixIsTruncated(code: uint16, sequence: uint64, payload: bytes, n: nat)
    requires |payload| <= MAX_PAYLOAD && n < |Frame(code, sequence, payload)|
    ensures Unmarshal(Frame(code, sequence, payload)[..n]) == Err(Truncated)
  {
    var f := Frame(code, sequence, payload);
    FrameFields(code, sequence, payload);
    if FRAME_BYTES <= n {
      assert f[..n][10..14] == f[10..14];
    }
  }

  /** A record with one byte damaged is not read: neither in its type, its number, its payload nor its checksum. A damaged
      length may still move the end of the record. */
  lemma DamagedRecordRejected(code: uint16, sequence: uint64, payload: bytes, i: nat, x: uint8, tail: bytes)
    requires |payload| <= MAX_PAYLOAD && i < |Frame(code, sequence, payload)| && !(10 <= i < 14)
    requires Frame(code, sequence, payload)[i] != x
    ensures Unmarshal(Frame(code, sequence, payload)[i := x] + tail) == Err(BadChecksum)
  {
    hide Checksum, LE, FromLE, Frame;
    var f := Frame(code, sequence, payload);
    var g := f[i := x];
    FrameFields(code, sequence, payload);
    assert g[10..14] == f[10..14] == (g + tail)[10..14];
    assert (g + tail)[..|f|] == g;
    SealNotices(f, i, x);
  }

  /** Nothing after a record changes how it reads. */
  lemma UnmarshalLocal(b: bytes, tail: bytes)
    requires Unmarshal(b) != Err(Truncated)
    ensures Unmarshal(b + tail) == Unmarshal(b)
  {
    var c := b + tail;
    assert c[10..14] == b[10..14];
    var total := FRAME_BYTES + Read32(b[10..14]);
    assert c[..total] == b[..total];
  }
}
