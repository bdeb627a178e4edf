/** Result types and fixed-width unsigned arithmetic shared by every component. */
module Prelude {

  datatype Option<+T> = None | Some(value: T)

  datatype Result<+T, +E> = Ok(value: T) | Err(error: E)

  const U64_MAX: nat := 0xFFFF_FFFF_FFFF_FFFF

  /** A 64-bit unsigned word; `usize` on the supported targets. */
  type U64 = n: nat | n <= 0xFFFF_FFFF_FFFF_FFFF

  /** One more than `U64_MAX`. */
  const TWO_64: nat := 0x1_0000_0000_0000_0000

  type U32 = n: nat | n <= 0xFFFF_FFFF

  type U16 = n: nat | n <= 0xFFFF

  type Byte = n: nat | n < 256

  function Min(a: nat, b: nat): nat {
    if a <= b then a else b
  }

  function Max(a: nat, b: nat): nat {
    if a <= b then b else a
  }

  /** `saturating_add` on 64-bit words. */
  function SatAdd(a: U64, b: nat): U64 {
    Min(a + b, U64_MAX)
  }

  lemma ConcatAssociates<T>(a: seq<T>, b: seq<T>, c: seq<T>)
    ensures a + b + c == a + (b + c)
  {
  }

  /** Wrapping addition on 64-bit words. */
  function WrapAdd(a: U64, b: nat): U64 {
    (a + b) % TWO_64
  }

  lemma WrapAddTwice(a: U64, b: nat, c: nat)
    ensures WrapAdd(WrapAdd(a, b), c) == WrapAdd(a, b + c)
  {
    var q := (a + b) / TWO_64;
    assert a + b + c == q * TWO_64 + ((a + b) % TWO_64 + c);
    ModAddMultiple((a + b) % TWO_64 + c, q);
  }

  lemma ModAddMultiple(x: nat, q: int)
    ensures (q * TWO_64 + x) % TWO_64 == x % TWO_64
  {
    var total := q * TWO_64 + x;
    assert total == (q + x / TWO_64) * TWO_64 + x % TWO_64;
  }

  lemma WrapAddNone(a: U64)
    ensures WrapAdd(a, 0) == a
  {
  }
}
