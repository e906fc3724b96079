/** The byte formats of extents and journal records (internal/mapfile/codec.go, journal.go, journal_codec.go). */
module LittleEndian {
  import opened Prelude

  function LE(n: nat, width: nat): (b: bytes)
    ensures |b| == width
  {
    if width == 0 then [] else [n % 256] + LE(n / 256, width - 1)
  }

  function FromLE(b: bytes): nat {
    if b == [] then 0 else b[0] + 256 * FromLE(b[1..])
  }

  function Pow256(k: nat): (p: nat)
    ensures p > 0
  {
    if k == 0 then 1 else 256 * Pow256(k - 1)
  }

  lemma {:induction false} FromLEOfLE(n: nat, width: nat)
    requires n < Pow256(width)
    ensures FromLE(LE(n, width)) == n
  {
    if width > 0 {
      FromLEOfLE(n / 256, width - 1);
      assert LE(n, width)[1..] == LE(n / 256, width - 1);
    }
  }

  lemma {:induction false} LEOfFromLE(b: bytes)
    ensures FromLE(b) < Pow256(|b|)
    ensures LE(FromLE(b), |b|) == b
  {
    if b != [] {
      LEOfFromLE(b[1..]);
      assert FromLE(b) / 256 == FromLE(b[1..]) && FromLE(b) % 256 == b[0];
    }
  }

  /** Byte i of a number is its digit i to the base 256, the lowest first. */
  lemma {:induction false} DigitAt(n: nat, width: nat, i: nat)
    requires i < width
    ensures LE(n, width)[i] == n / Pow256(i) % 256
  {
    if i > 0 {
      DigitAt(n / 256, width - 1, i - 1);
      DivideTwice(n, Pow256(i - 1));
    }
  }

  lemma DivideTwice(n: nat, d: nat)
    requires 0 < d
    ensures (n / 256) / d == n / (256 * d)
  {
    var q, r := n / 256, n % 256;
    var s, t := q / d, q % d;
    assert n == 256 * q + r && q == d * s + t;
    assert n == (256 * d) * s + (256 * t + r);
    assert 0 <= 256 * t + r < 256 * d;
    Quotient(n, 256 * d, s, 256 * t + r);
  }

  lemma Quotient(n: nat, d: nat, q: nat, r: nat)
    requires 0 < d && n == d * q + r && r < d
    ensures n / d == q
  {
    var p := n / d;
    assert n == d * p + n % d;
    assert p < q ==> d * (p + 1) <= d * q;
    assert q < p ==> d * (q + 1) <= d * p;
  }

  lemma Widths()
    ensures Pow256(2) == TWO_16 && Pow256(4) == TWO_32 && Pow256(8) == TWO_64
  {
    assert Pow256(1) == 256;
    assert Pow256(2) == 256 * Pow256(1);
    assert Pow256(3) == 256 * Pow256(2);
    assert Pow256(4) == 256 * Pow256(3);
    assert Pow256(5) == 256 * Pow256(4);
    assert Pow256(6) == 256 * Pow256(5);
    assert Pow256(7) == 256 * Pow256(6);
    assert Pow256(8) == 256 * Pow256(7);
  }

  function Read16(b: bytes): uint16 requires |b| == 2 { Widths(); LEOfFromLE(b); FromLE(b) }
  function Read32(b: bytes): uint32 requires |b| == 4 { Widths(); LEOfFromLE(b); FromLE(b) }
  function Read64(b: bytes): uint64 requires |b| == 8 { Widths(); LEOfFromLE(b); FromLE(b) }

  lemma Numbers(a: uint16, b: uint32, c: uint64)
    ensures Read16(LE(a, 2)) == a && Read32(LE(b, 4)) == b && Read64(LE(c, 8)) == c
  {
    Widths();
    FromLEOfLE(a, 2);
    FromLEOfLE(b, 4);
    FromLEOfLE(c, 8);
  }

  /** binary.LittleEndian.PutUint*: everything before the field is kept, and everything after it. */
  method PutLE(buffer: array<uint8>, at: nat, width: nat, n: nat)
    requires at + width <= buffer.Length
    modifies buffer
    ensures buffer[..at + width] == old(buffer[..at]) + LE(n, width)
    ensures buffer[at + width..] == old(buffer[at + width..])
  {
    var rest := n;
    for i := 0 to width
      invariant buffer[..at + i] + LE(rest, width - i) == old(buffer[..at]) + LE(n, width)
      invariant buffer[at + i..] == old(buffer[at + i..])
    {
      ghost var before := buffer[..at + i];
      buffer[at + i] := rest % 256;
      assert buffer[..at + i + 1] == before + [rest % 256];
      rest := rest / 256;
    }
  }

  /** copy(buffer[at:], data). */
  method CopyInto(buffer: array<uint8>, at: nat, data: bytes)
    requires at + |data| <= buffer.Length
    modifies buffer
    ensures buffer[..at + |data|] == old(buffer[..at]) + data
    ensures buffer[at + |data|..] == old(buffer[at + |data|..])
  {
    for i := 0 to |data|
      invariant buffer[..at + i] == old(buffer[..at]) + data[..i]
      invariant buffer[at + i..] == old(buffer[at + i..])
    {
      buffer[at + i] := data[i];
    }
  }
}

/** CRC-32C, section 12.1 of RFC 3720, bit by bit: what crc32.Checksum computes with the Castagnoli table. */
module Crc32c {
  import opened Prelude
  import opened LittleEndian

  const POLYNOMIAL := 0x82F6_3B78

  function Xor(a: nat, b: nat, width: nat): nat {
    if width == 0 then 0
    else (if a % 2 == b % 2 then 0 else 1) + 2 * Xor(a / 2, b / 2, width - 1)
  }

  function Shifted(crc: nat, bits: nat): nat
    decreases bits
  {
    if bits == 0 then crc
    else Shifted(if crc % 2 == 1 then Xor(crc / 2, POLYNOMIAL, 32) else crc / 2, bits - 1)
  }

  function Update(crc: nat, data: bytes): nat
    decreases |data|
  {
    if data == [] then crc else Update(Shifted(Xor(crc, data[0], 32), 8), data[1..])
  }

  function Checksum(data: bytes): uint32 {
    Wrap32(Xor(Update(0xFFFF_FFFF, data), 0xFFFF_FFFF, 32))
  }

  // ----- a single damaged byte is noticed

  function Pow2(k: nat): (p: nat)
    ensures p > 0
  {
    if k == 0 then 1 else 2 * Pow2(k - 1)
  }

  lemma Word()
    ensures Pow2(8) == 0x100 && Pow2(31) == 0x8000_0000 && Pow2(32) == TWO_32
  {
    assert Pow2(4) == 16;
    assert Pow2(8) == 16 * Pow2(4);
    assert Pow2(12) == 16 * Pow2(8);
    assert Pow2(16) == 16 * Pow2(12);
    assert Pow2(20) == 16 * Pow2(16);
    assert Pow2(24) == 16 * Pow2(20);
    assert Pow2(28) == 16 * Pow2(24);
    assert Pow2(31) == 8 * Pow2(28);
    assert Pow2(32) == 2 * Pow2(31);
  }

  lemma {:induction false} XorBounds(a: nat, b: nat, width: nat)
    ensures Xor(a, b, width) < Pow2(width) && Xor(a, b, width) == Xor(b, a, width)
  {
    if width > 0 {
      XorBounds(a / 2, b / 2, width - 1);
    }
  }

  lemma {:induction false} XorInjective(a: nat, a': nat, b: nat, width: nat)
    requires a < Pow2(width) && a' < Pow2(width) && Xor(a, b, width) == Xor(a', b, width)
    ensures a == a'
  {
    if width > 0 {
      var x, x' := Xor(a / 2, b / 2, width - 1), Xor(a' / 2, b / 2, width - 1);
      assert Xor(a, b, width) == (if a % 2 == b % 2 then 0 else 1) + 2 * x;
      assert Xor(a', b, width) == (if a' % 2 == b % 2 then 0 else 1) + 2 * x';
      XorInjective(a / 2, a' / 2, b / 2, width - 1);
    }
  }

  lemma {:induction false} XorTopBit(a: nat, b: nat, width: nat)
    requires 0 < width && a < Pow2(width - 1) <= b < Pow2(width)
    ensures Pow2(width - 1) <= Xor(a, b, width)
  {
    if width == 1 {
      assert a == 0 && b == 1 && Pow2(1) == 2;
      assert Xor(0, 0, 0) == 0;
    } else {
      assert Pow2(width) == 2 * Pow2(width - 1) && Pow2(width - 1) == 2 * Pow2(width - 2);
      XorTopBit(a / 2, b / 2, width - 1);
    }
  }

  function ShiftOne(crc: nat): nat {
    if crc % 2 == 1 then Xor(crc / 2, POLYNOMIAL, 32) else crc / 2
  }

  /** The polynomial has its top bit set, so the bit shifted out can be told from the result. */
  lemma ShiftOneInjective(a: nat, b: nat)
    requires a < TWO_32 && b < TWO_32
    ensures ShiftOne(a) < TWO_32 && (ShiftOne(a) == ShiftOne(b) ==> a == b)
  {
    hide Xor, Pow2;
    Word();
    XorBounds(a / 2, POLYNOMIAL, 32);
    XorTopBit(a / 2, POLYNOMIAL, 32);
    XorTopBit(b / 2, POLYNOMIAL, 32);
    if a % 2 == 1 && b % 2 == 1 && ShiftOne(a) == ShiftOne(b) {
      XorInjective(a / 2, b / 2, POLYNOMIAL, 32);
    }
  }

  lemma {:induction false} ShiftedInjective(a: nat, b: nat, bits: nat)
    requires a < TWO_32 && b < TWO_32
    ensures Shifted(a, bits) < TWO_32 && (Shifted(a, bits) == Shifted(b, bits) ==> a == b)
    decreases bits
  {
    hide Xor;
    if bits > 0 {
      ShiftOneInjective(a, b);
      ShiftOneInjective(b, a);
      ShiftedInjective(ShiftOne(a), ShiftOne(b), bits - 1);
    }
  }

  function Fed(crc: nat, x: uint8): nat {
    Shifted(Xor(crc, x, 32), 8)
  }

  lemma FedInjective(a: nat, b: nat, x: uint8, y: uint8)
    requires a < TWO_32 && b < TWO_32
    ensures Fed(a, x) < TWO_32
    ensures Fed(a, x) == Fed(b, x) ==> a == b
    ensures Fed(a, x) == Fed(a, y) ==> x == y
  {
    hide Xor, Shifted, Pow2;
    Word();
    XorBounds(a, x, 32);
    XorBounds(a, y, 32);
    XorBounds(b, x, 32);
    ShiftedInjective(Xor(a, x, 32), Xor(b, x, 32), 8);
    ShiftedInjective(Xor(a, x, 32), Xor(a, y, 32), 8);
    if Fed(a, x) == Fed(b, x) {
      XorInjective(a, b, x, 32);
    }
    if Fed(a, x) == Fed(a, y) {
      XorInjective(x, y, a, 32);
    }
  }

  lemma {:induction false} UpdateInjective(a: nat, b: nat, data: bytes)
    requires a < TWO_32 && b < TWO_32
    ensures Update(a, data) < TWO_32 && (Update(a, data) == Update(b, data) ==> a == b)
    decreases |data|
  {
    hide Xor, Shifted;
    if data != [] {
      FedInjective(a, b, data[0], data[0]);
      FedInjective(b, a, data[0], data[0]);
      UpdateInjective(Fed(a, data[0]), Fed(b, data[0]), data[1..]);
    }
  }

  lemma {:induction false} UpdateNotices(crc: nat, a: bytes, i: nat, x: uint8)
    requires crc < TWO_32 && i < |a| && a[i] != x
    ensures Update(crc, a) < TWO_32 && Update(crc, a[i := x]) < TWO_32 && Update(crc, a) != Update(crc, a[i := x])
    decreases |a|
  {
    hide Xor, Shifted;
    var b := a[i := x];
    FedInjective(crc, crc, a[0], b[0]);
    FedInjective(crc, crc, b[0], a[0]);
    if i == 0 {
      assert a[1..] == b[1..];
      UpdateInjective(Fed(crc, a[0]), Fed(crc, b[0]), a[1..]);
      UpdateInjective(Fed(crc, b[0]), Fed(crc, a[0]), a[1..]);
    } else {
      assert b[1..] == a[1..][i - 1 := x];
      UpdateNotices(Fed(crc, a[0]), a[1..], i - 1, x);
    }
  }

  /** Data that differ in a single byte have different checksums. */
  lemma ChecksumNotices(a: bytes, i: nat, x: uint8)
    requires i < |a| && a[i] != x
    ensures Checksum(a) != Checksum(a[i := x])
  {
    hide Xor, Update, Pow2;
    Word();
    var u, v := Update(0xFFFF_FFFF, a), Update(0xFFFF_FFFF, a[i := x]);
    UpdateNotices(0xFFFF_FFFF, a, i, x);
    XorBounds(u, 0xFFFF_FFFF, 32);
    XorBounds(v, 0xFFFF_FFFF, 32);
    if Xor(u, 0xFFFF_FFFF, 32) == Xor(v, 0xFFFF_FFFF, 32) {
      XorInjective(u, v, 0xFFFF_FFFF, 32);
    }
  }

  lemma Read32Injective(a: bytes, b: bytes)
    requires |a| == |b| == 4 && Read32(a) == Read32(b)
    ensures a == b
  {
    hide LE, FromLE;
    LEOfFromLE(a);
    LEOfFromLE(b);
  }

  /** The last four bytes are the checksum of those before them. */
  predicate Seals(b: bytes) {
    4 <= |b| && Read32(b[|b|-4..]) == Checksum(b[..|b|-4])
  }

  /** Of sealed bytes no single one can be damaged unnoticed, the checksum's own included. */
  lemma SealNotices(b: bytes, i: nat, x: uint8)
    requires Seals(b) && i < |b| && b[i] != x
    ensures !Seals(b[i := x])
  {
    hide Checksum, LE, FromLE, Read32;
    var c, n := b[i := x], |b| - 4;
    if i < n {
      assert c[n..] == b[n..] && c[..n] == b[..n][i := x];
      ChecksumNotices(b[..n], i, x);
    } else {
      assert c[..n] == b[..n];
      assert c[n..][i - n] != b[n..][i - n];
      if Read32(c[n..]) == Read32(b[n..]) {
        Read32Injective(c[n..], b[n..]);
      }
    }
  }
}

module ExtentCodec {
  import opened Prelude
  import opened Transitions
  import opened Extents
  import opened LittleEndian

  const EXTENT_BYTES := 39

  function ExtentBytes(e: Extent): (b: bytes)
    ensures |b| == EXTENT_BYTES
  {
    LE(e.start, 8) + LE(e.sectors, 4) + [e.mark.state, e.mark.confidence] + LE(e.mark.attempts, 2) +
    LE(e.mark.capture, 4) + [e.mark.senseKey, e.mark.asc, e.mark.ascq] + e.mark.hash
  }

  function ParseExtent(b: bytes): Extent
    requires |b| == EXTENT_BYTES
  {
    Extent(Read64(b[0..8]), Read32(b[8..12]),
           Mark(b[12], b[13], Read16(b[14..16]), Read32(b[16..20]), b[20], b[21], b[22], b[23..39]))
  }

  lemma HeadFields(start: uint64, sectors: uint32, two: bytes, rest: bytes)
    requires |two| == 2
    ensures var b := LE(start, 8) + LE(sectors, 4) + two + rest;
            |b| == 14 + |rest| && Read64(b[0..8]) == start && Read32(b[8..12]) == sectors && b[12..14] == two && b[14..] == rest
  {
    var b := LE(start, 8) + LE(sectors, 4) + two + rest;
    Numbers(0, sectors, start);
    assert b[0..8] == LE(start, 8);
    assert b[8..12] == LE(sectors, 4);
  }

  lemma RestFields(attempts: uint16, capture: uint32, three: bytes, hash: bytes)
    requires |three| == 3
    ensures var b := LE(attempts, 2) + LE(capture, 4) + three + hash;
            |b| == 9 + |hash| && Read16(b[0..2]) == attempts && Read32(b[2..6]) == capture && b[6..9] == three && b[9..] == hash
  {
    var b := LE(attempts, 2) + LE(capture, 4) + three + hash;
    Numbers(attempts, capture, 0);
    assert b[0..2] == LE(attempts, 2);
    assert b[2..6] == LE(capture, 4);
  }

  lemma ParseOfBytes(e: Extent)
    ensures ParseExtent(ExtentBytes(e)) == e
  {
    hide LE, FromLE, Read16, Read32, Read64;
    var b := ExtentBytes(e);
    var two, three := [e.mark.state, e.mark.confidence], [e.mark.senseKey, e.mark.asc, e.mark.ascq];
    var rest := LE(e.mark.attempts, 2) + LE(e.mark.capture, 4) + three + e.mark.hash;
    assert b == LE(e.start, 8) + LE(e.sectors, 4) + two + rest;
    HeadFields(e.start, e.sectors, two, rest);
    RestFields(e.mark.attempts, e.mark.capture, three, e.mark.hash);
    assert b[14..16] == rest[0..2] && b[16..20] == rest[2..6] && b[20..23] == rest[6..9] && b[23..39] == rest[9..];
    assert b[12] == b[12..14][0] && b[13] == b[12..14][1];
    assert b[20] == b[20..23][0] && b[21] == b[20..23][1] && b[22] == b[20..23][2];
  }

  /** Where the fields of an extent lie. */
  lemma ExtentLayout(e: Extent)
    ensures var b := ExtentBytes(e);
            && FromLE(b[0..8]) == e.start && FromLE(b[8..12]) == e.sectors && b[12] == e.mark.state && b[13] == e.mark.confidence
            && FromLE(b[14..16]) == e.mark.attempts && FromLE(b[16..20]) == e.mark.capture
            && b[20] == e.mark.senseKey && b[21] == e.mark.asc && b[22] == e.mark.ascq && b[23..39] == e.mark.hash
  {
    hide LE, FromLE, ExtentBytes;
    ParseOfBytes(e);
  }

  lemma BytesOfParse(b: bytes)
    requires |b| == EXTENT_BYTES
    ensures ExtentBytes(ParseExtent(b)) == b
  {
    hide LE, FromLE;
    LEOfFromLE(b[0..8]);
    LEOfFromLE(b[8..12]);
    LEOfFromLE(b[14..16]);
    LEOfFromLE(b[16..20]);
    assert b == b[0..8] + b[8..12] + [b[12], b[13]] + b[14..16] + b[16..20] + [b[20], b[21], b[22]] + b[23..39];
  }

  datatype CodecError = Truncated | BadExtent | BadLength | ZeroSequence | PayloadTooLong | BadChecksum | UnknownType

  /** MarshalExtent (codec.go:10), which fills its buffer field by field. */
  method MarshalExtent(e: Extent) returns (r: Result<bytes, CodecError>)
    ensures r == if e.Valid() then Ok(ExtentBytes(e)) else Err(BadExtent)
  {
    if !e.Valid() {
      return Err(BadExtent);
    }
    var buffer := new uint8[EXTENT_BYTES];
    PutLE(buffer, 0, 8, e.start);
    assert buffer[..8] == LE(e.start, 8);
    PutLE(buffer, 8, 4, e.sectors);
    CopyInto(buffer, 12, [e.mark.state, e.mark.confidence]);
    PutLE(buffer, 14, 2, e.mark.attempts);
    PutLE(buffer, 16, 4, e.mark.capture);
    CopyInto(buffer, 20, [e.mark.senseKey, e.mark.asc, e.mark.ascq]);
    ghost var fields := buffer[..23];
    CopyInto(buffer, 23, e.mark.hash);
    assert buffer[..] == buffer[..39] == fields + e.mark.hash == ExtentBytes(e);
    return Ok(buffer[..]);
  }

  function UnmarshalExtent(b: bytes): Result<Extent, CodecError> {
    if |b| != EXTENT_BYTES then Err(BadLength)
    else if !ParseExtent(b).Valid() then Err(BadExtent)
    else Ok(ParseExtent(b))
  }

  /** Decoding inverts encoding, and whatever decodes re-encodes to the bytes it came from. */
  lemma ExtentRoundTrip(e: Extent, b: bytes)
    ensures e.Valid() ==> UnmarshalExtent(ExtentBytes(e)) == Ok(e)
    ensures UnmarshalExtent(b) == Ok(e) ==> e.Valid() && ExtentBytes(e) == b
  {
    ParseOfBytes(e);
    if |b| == EXTENT_BYTES {
      BytesOfParse(b);
    }
  }
}
