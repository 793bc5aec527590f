/**
 The fixed-width integers of the program: Go's uint64 arithmetic wraps, and the
 casts to int64 (a bigint parameter) and int16 (a smallint parameter) reinterpret
 the low bits in two's complement.
 */
module Words {

  const TWO63: nat := 0x8000_0000_0000_0000
  const TWO64: nat := 0x1_0000_0000_0000_0000

  function Add64(a: nat, b: nat): nat {
    (a + b) % TWO64
  }

  function Sub64(a: nat, b: nat): nat {
    (a - b) % TWO64
  }

  function ToInt64(u: nat): int {
    var m := u % TWO64;
    if m < TWO63 then m else m - TWO64
  }

  /** The uint64 a bigint is read back as. */
  function FromInt64(n: int): nat {
    n % TWO64
  }

  function ToInt16(n: nat): int {
    var m := n % 0x1_0000;
    if m < 0x8000 then m else m - 0x1_0000
  }

  function Min(a: int, b: int): int {
    if a <= b then a else b
  }

  function Max(a: int, b: int): int {
    if a <= b then b else a
  }
}
