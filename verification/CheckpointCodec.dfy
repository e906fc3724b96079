/** Checkpoints as they lie in the map file (internal/mapfile/checkpoint.go, checkpoint_codec.go). */
module CheckpointCodec {
  import opened Prelude
  import opened Transitions
  import opened Extents
  import opened LittleEndian
  import opened Crc32c
  import opened ExtentCodec
  import opened Replaying

  const MAGIC: bytes := [0x44, 0x53, 0x43, 0x50]
  const FORMAT_VERSION: uint16 := 1
  const FIXED_PAYLOAD := 12
  const MAX_CHECKPOINT_PAYLOAD := 0x400_0000
  const MAX_CHECKPOINT_EXTENTS := 0x10_0000

  datatype Limits = Limits(payload: uint64, extents: uint64)

  const DEFAULT_LIMITS := Limits(MAX_CHECKPOINT_PAYLOAD, MAX_CHECKPOINT_EXTENTS)

  datatype CheckpointError =
    | LimitTooSmall | TooShort | BadMagic | BadVersion | PayloadTooSmall | PayloadTooBig | WrongLength
    | WrongChecksum | WrongCount | TooManyExtents | ExtentRejected(codec: CodecError) | SetRejected

  function ExtentsBytes(es: seq<Extent>): (b: bytes)
    ensures |b| == 39 * |es|
  {
    if es == [] then [] else ExtentsBytes(es[..|es|-1]) + ExtentBytes(es[|es|-1])
  }

  function Head(payload: nat, last: uint64, count: nat): (b: bytes)
    ensures |b| == 22
  {
    MAGIC + LE(FORMAT_VERSION, 2) + LE(payload, 4) + LE(last, 8) + LE(count, 4)
  }

  function Unsealed(cp: Checkpoint): (b: bytes)
    ensures |b| == 22 + 39 * |cp.extents|
  {
    Head(12 + 39 * |cp.extents|, cp.last, |cp.extents|) + ExtentsBytes(cp.extents)
  }

  function Sealed(b: bytes): bytes {
    b + LE(Checksum(b), 4)
  }

  function Marshal(cp: Checkpoint): Result<bytes, CheckpointError> {
    if !ValidSet(cp.extents) then Err(SetRejected)
    else if |cp.extents| > MAX_CHECKPOINT_EXTENTS then Err(TooManyExtents)
    else if 12 + 39 * |cp.extents| > MAX_CHECKPOINT_PAYLOAD then Err(PayloadTooBig)
    else Ok(Sealed(Unsealed(cp)))
  }

  method MarshalCheckpoint(cp: Checkpoint) returns (r: Result<bytes, CheckpointError>)
    ensures r == Marshal(cp)
  {
    hide Checksum, Head, ExtentsBytes;
    if !ValidSet(cp.extents) {
      return Err(SetRejected);
    }
    if |cp.extents| > MAX_CHECKPOINT_EXTENTS {
      return Err(TooManyExtents);
    }
    var payload := 8 + 4 + 39 * |cp.extents|;
    if payload > MAX_CHECKPOINT_PAYLOAD {
      return Err(PayloadTooBig);
    }
    var encoded := new uint8[4 + 2 + 4 + payload + 4];
    PutHead(encoded, payload, cp.last, |cp.extents|);
    var offset := PutExtents(encoded, cp.extents);
    PutLE(encoded, offset, 4, Checksum(encoded[..offset]));
    assert encoded[..] == encoded[..offset + 4];
    return Ok(encoded[..]);
  }

  method PutHead(encoded: array<uint8>, payload: nat, last: uint64, count: nat)
    requires 22 <= encoded.Length
    modifies encoded
    ensures encoded[..22] == Head(payload, last, count)
  {
    CopyInto(encoded, 0, MAGIC);
    assert encoded[..4] == MAGIC;
    PutLE(encoded, 4, 2, FORMAT_VERSION);
    PutLE(encoded, 6, 4, payload);
    PutLE(encoded, 10, 8, last);
    PutLE(encoded, 18, 4, count);
  }

  method PutExtents(encoded: array<uint8>, es: seq<Extent>) returns (offset: nat)
    requires 22 + 39 * |es| <= encoded.Length && forall i :: 0 <= i < |es| ==> es[i].Valid()
    modifies encoded
    ensures offset == 22 + 39 * |es|
    ensures encoded[..offset] == old(encoded[..22]) + ExtentsBytes(es)
  {
    hide ExtentBytes;
    offset := 22;
    for i := 0 to |es|
      invariant offset == 22 + 39 * i
      invariant encoded[..offset] == old(encoded[..22]) + ExtentsBytes(es[..i])
    {
      var extent := MarshalExtent(es[i]);
      CopyInto(encoded, offset, extent.value);
      assert es[..i+1][..i] == es[..i];
      Associative(old(encoded[..22]), ExtentsBytes(es[..i]), ExtentBytes(es[i]));
      offset := offset + 39;
    }
    assert es[..|es|] == es;
  }

  /** The extents of a payload, or the first that does not decode. */
  function ParseExtents(b: bytes, count: nat): (r: Result<seq<Extent>, CodecError>)
    requires |b| == 39 * count
    ensures r.Ok? ==> |r.value| == count
    decreases count
  {
    if count == 0 then Ok([])
    else
      match ParseExtents(b[..39 * (count - 1)], count - 1)
      case Err(e) => Err(e)
      case Ok(es) =>
        match UnmarshalExtent(b[39 * (count - 1)..])
        case Err(e) => Err(e)
        case Ok(x) => Ok(es + [x])
  }

  function Unmarshal(b: bytes, limits: Limits): Result<Checkpoint, CheckpointError> {
    if limits.payload < FIXED_PAYLOAD then Err(LimitTooSmall)
    else if |b| < 26 then Err(TooShort)
    else if b[0..4] != MAGIC then Err(BadMagic)
    else if Read16(b[4..6]) != FORMAT_VERSION then Err(BadVersion)
    else
      var payload := Read32(b[6..10]);
      if payload < FIXED_PAYLOAD then Err(PayloadTooSmall)
      else if payload > limits.payload then Err(PayloadTooBig)
      else if |b| != 14 + payload then Err(WrongLength)
      else if Read32(b[|b|-4..]) != Checksum(b[..|b|-4]) then Err(WrongChecksum)
      else
        var count := Read32(b[18..22]);
        if 12 + 39 * count != payload then Err(WrongCount)
        else if count > limits.extents then Err(TooManyExtents)
        else
          match ParseExtents(b[22..|b|-4], count)
          case Err(e) => Err(ExtentRejected(e))
          case Ok(es) =>
            if ValidSet(es) then Ok(Checkpoint(Read64(b[10..18]), es)) else Err(SetRejected)
  }

  method UnmarshalCheckpoint(b: bytes, limits: Limits) returns (r: Result<Checkpoint, CheckpointError>)
    ensures r == Unmarshal(b, limits)
  {
    if limits.payload < FIXED_PAYLOAD {
      return Err(LimitTooSmall);
    }
    if |b| < 26 {
      return Err(TooShort);
    }
    if b[0..4] != MAGIC {
      return Err(BadMagic);
    }
    if Read16(b[4..6]) != FORMAT_VERSION {
      return Err(BadVersion);
    }
    var payload := Read32(b[6..10]);
    if payload < FIXED_PAYLOAD {
      return Err(PayloadTooSmall);
    }
    if payload > limits.payload {
      return Err(PayloadTooBig);
    }
    if |b| != 4 + 2 + 4 + 4 + payload {
      return Err(WrongLength);
    }
    if Read32(b[|b|-4..]) != Checksum(b[..|b|-4]) {
      return Err(WrongChecksum);
    }
    var count := Read32(b[18..22]);
    if 12 + 39 * count != payload {
      return Err(WrongCount);
    }
    if count > limits.extents {
      return Err(TooManyExtents);
    }
    var last := Read64(b[10..18]);
    var es := ReadExtents(b, count);
    if es.Err? {
      return Err(ExtentRejected(es.error));
    }
    if !ValidSet(es.value) {
      return Err(SetRejected);
    }
    return Ok(Checkpoint(last, es.value));
  }

  method ReadExtents(b: bytes, count: nat) returns (r: Result<seq<Extent>, CodecError>)
    requires |b| == 26 + 39 * count
    ensures r == ParseExtents(b[22..|b|-4], count)
  {
    hide UnmarshalExtent;
    ghost var data := b[22..|b|-4];
    var offset := 22;
    var es: seq<Extent> := [];
    for i := 0 to count
      invariant offset == 22 + 39 * i
      invariant ParseExtents(data[..39 * i], i) == Ok(es)
    {
      ghost var front := data[..39 * (i + 1)];
      assert front[..39 * i] == data[..39 * i];
      SubSlice(b, 22, |b| - 4, 39 * i, 39 * i + 39);
      SubSlice(data, 0, 39 * (i + 1), 39 * i, 39 * i + 39);
      var extent := UnmarshalExtent(b[offset..offset + 39]);
      if extent.Err? {
        ParseFails(data, i + 1, count);
        assert data[..39 * count] == data;
        return Err(extent.error);
      }
      es := es + [extent.value];
      offset := offset + 39;
    }
    assert data[..39 * count] == data;
    return Ok(es);
  }

  lemma SubSlice(b: bytes, lo: nat, hi: nat, i: nat, j: nat)
    requires i <= j <= hi - lo && hi <= |b|
    ensures b[lo..hi][i..j] == b[lo + i..lo + j]
  {
    var x, y := b[lo..hi][i..j], b[lo + i..lo + j];
    assert forall k :: 0 <= k < |x| ==> x[k] == y[k];
  }

  lemma {:induction false} ParseFails(data: bytes, i: nat, count: nat)
    requires i <= count && |data| == 39 * count && ParseExtents(data[..39 * i], i).Err?
    ensures ParseExtents(data, count) == ParseExtents(data[..39 * i], i)
    decreases count
  {
    if i == count {
      assert data[..39 * i] == data;
    } else {
      var front := data[..39 * (count - 1)];
      assert front[..39 * i] == data[..39 * i];
      ParseFails(front, i, count - 1);
    }
  }

  // ----- round trips

  lemma {:induction false} ParseOfExtentsBytes(es: seq<Extent>)
    requires forall i :: 0 <= i < |es| ==> es[i].Valid()
    ensures ParseExtents(ExtentsBytes(es), |es|) == Ok(es)
  {
    if es != [] {
      var p, e, n := es[..|es|-1], es[|es|-1], |es| - 1;
      ParseOfExtentsBytes(p);
      ExtentRoundTrip(e, ExtentBytes(e));
      var b := ExtentsBytes(es);
      assert b[..39 * n] == ExtentsBytes(p) && b[39 * n..] == ExtentBytes(e);
      assert p + [e] == es;
    }
  }

  lemma {:induction false} ExtentsBytesOfParse(b: bytes, count: nat)
    requires |b| == 39 * count && ParseExtents(b, count).Ok?
    ensures ExtentsBytes(ParseExtents(b, count).value) == b
    decreases count
  {
    if count > 0 {
      var n := count - 1;
      var es := ParseExtents(b, count).value;
      ExtentsBytesOfParse(b[..39 * n], n);
      ExtentRoundTrip(es[n], b[39 * n..]);
      assert es[..n] == ParseExtents(b[..39 * n], n).value;
      assert b == b[..39 * n] + b[39 * n..];
    }
  }

  lemma HeadFields(payload: uint32, last: uint64, count: uint32)
    ensures var h := Head(payload, last, count);
            && h[0..4] == MAGIC && Read16(h[4..6]) == FORMAT_VERSION && Read32(h[6..10]) == payload
            && Read64(h[10..18]) == last && Read32(h[18..22]) == count
  {
    var h := Head(payload, last, count);
    Numbers(FORMAT_VERSION, payload, last);
    Numbers(FORMAT_VERSION, count, last);
    assert h[4..6] == LE(FORMAT_VERSION, 2);
    assert h[6..10] == LE(payload, 4);
    assert h[10..18] == LE(last, 8);
    assert h[18..22] == LE(count, 4);
  }

  lemma HeadOfFields(b: bytes)
    requires |b| >= 22 && b[0..4] == MAGIC && Read16(b[4..6]) == FORMAT_VERSION
    ensures b[..22] == Head(Read32(b[6..10]), Read64(b[10..18]), Read32(b[18..22]))
  {
    LEOfFromLE(b[4..6]);
    LEOfFromLE(b[6..10]);
    LEOfFromLE(b[10..18]);
    LEOfFromLE(b[18..22]);
    assert b[..22] == b[0..4] + b[4..6] + b[6..10] + b[10..18] + b[18..22];
  }

  lemma SealedParts(b: bytes)
    ensures var s := Sealed(b);
            |s| == |b| + 4 && s[..|s|-4] == b && Read32(s[|s|-4..]) == Checksum(b)
  {
    Numbers(0, Checksum(b), 0);
    assert Sealed(b)[|b|..] == LE(Checksum(b), 4);
  }

  lemma FieldsInFront(h: bytes, rest: bytes)
    requires |h| == 22
    ensures var b := h + rest;
            && b[0..4] == h[0..4] && b[4..6] == h[4..6] && b[6..10] == h[6..10]
            && b[10..18] == h[10..18] && b[18..22] == h[18..22]
  {
  }

  /** A written checkpoint reads back as itself. */
  lemma CheckpointReadsBack(cp: Checkpoint)
    requires Marshal(cp).Ok?
    ensures Unmarshal(Marshal(cp).value, DEFAULT_LIMITS) == Ok(cp)
  {
    hide Checksum, ValidSet, Head, ExtentsBytes, ParseExtents;
    var u := Unsealed(cp);
    var b := Sealed(u);
    var count := |cp.extents|;
    var h, es := Head(12 + 39 * count, cp.last, count), ExtentsBytes(cp.extents);
    var crc := LE(Checksum(u), 4);
    SealedParts(u);
    HeadFields(12 + 39 * count, cp.last, count);
    Associative(h, es, crc);
    FieldsInFront(h, es + crc);
    assert b == h + (es + crc);
    assert b[22..|b|-4] == u[22..] == es;
    ParseValidExtents(cp.extents);
  }

  /** No checkpoint with a single damaged byte is read. */
  lemma DamagedCheckpointRejected(cp: Checkpoint, i: nat, x: uint8, limits: Limits)
    requires Marshal(cp).Ok? && i < |Marshal(cp).value| && Marshal(cp).value[i] != x
    ensures Unmarshal(Marshal(cp).value[i := x], limits).Err?
  {
    hide Checksum, ValidSet, Head, ExtentsBytes, ParseExtents, LE, FromLE, Read32;
    var u := Unsealed(cp);
    var b := Sealed(u);
    SealedParts(u);
    SealNotices(b, i, x);
  }

  lemma ParseValidExtents(es: seq<Extent>)
    requires ValidSet(es)
    ensures ParseExtents(ExtentsBytes(es), |es|) == Ok(es)
  {
    ParseOfExtentsBytes(es);
  }

  /** Whatever reads as a checkpoint under the default limits is rewritten as the same bytes. */
  lemma CheckpointRewrites(b: bytes)
    requires Unmarshal(b, DEFAULT_LIMITS).Ok?
    ensures Marshal(Unmarshal(b, DEFAULT_LIMITS).value) == Ok(b)
  {
    hide Checksum, ValidSet, ParseExtents;
    var cp := Unmarshal(b, DEFAULT_LIMITS).value;
    HeadOfFields(b);
    ExtentsBytesOfParse(b[22..|b|-4], |cp.extents|);
    UnsealedOfParts(b, cp);
    SealedOfParts(b);
  }

  lemma UnsealedOfParts(b: bytes, cp: Checkpoint)
    requires |b| == 26 + 39 * |cp.extents|
    requires b[..22] == Head(12 + 39 * |cp.extents|, cp.last, |cp.extents|)
    requires b[22..|b|-4] == ExtentsBytes(cp.extents)
    ensures b[..|b|-4] == Unsealed(cp)
  {
    assert b[..|b|-4] == b[..22] + b[22..|b|-4];
  }

  lemma SealedOfParts(b: bytes)
    requires 4 <= |b| && Read32(b[|b|-4..]) == Checksum(b[..|b|-4])
    ensures Sealed(b[..|b|-4]) == b
  {
    hide Checksum;
    var n := |b| - 4;
    LEOfFromLE(b[n..]);
    assert b == b[..n] + b[n..];
  }
}
