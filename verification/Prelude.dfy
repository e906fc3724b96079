/** Types shared by every part of the model: the fixed-width integers of the program and a result type. */
module Prelude {
  const TWO_16 := 0x1_0000
  const TWO_32 := 0x1_0000_0000
  const TWO_64 := 0x1_0000_0000_0000_0000

  type uint8 = x: int | 0 <= x < 0x100
  type uint16 = x: int | 0 <= x < 0x1_0000
  type uint32 = x: int | 0 <= x < 0x1_0000_0000
  type uint64 = x: int | 0 <= x < 0x1_0000_0000_0000_0000

  type bytes = seq<uint8>

  datatype Option<+T> = None | Some(value: T)

  datatype Result<+T, +E> = Ok(value: T) | Err(error: E)

  // Unsigned arithmetic wraps; the divisor is written out because the verifier treats a literal divisor best.
  function Wrap16(x: nat): uint16 { x % 0x1_0000 }

  function Wrap32(x: nat): uint32 { x % 0x1_0000_0000 }

  function Wrap64(x: nat): uint64 { x % 0x1_0000_0000_0000_0000 }

  /** Small numbers do not wrap. */
  lemma Fits(x: nat)
    ensures x < TWO_64 ==> Wrap64(x) == x && Wrap64(x + TWO_64) == x
    ensures x < TWO_32 ==> Wrap32(x) == x
    ensures x < TWO_16 ==> Wrap16(x) == x
  {
  }

  lemma Associative<T>(x: seq<T>, y: seq<T>, z: seq<T>)
    ensures x + (y + z) == (x + y) + z
  {
  }

  function Min(a: int, b: int): (m: int) {
    if a <= b then a else b
  }

  function Max(a: int, b: int): (m: int) {
    if a <= b then b else a
  }
}
