/** Kotlin's fixed-width integers. `Int` is 32-bit two's complement and every
    arithmetic operator wraps around silently; `Long` is the 64-bit analogue. */
module Ints {

  const MIN: int := -0x8000_0000
  const MAX: int := 0x7fff_ffff
  const MODULUS: int := 0x1_0000_0000

  /** A Kotlin `Int`. */
  newtype Int32 = x: int | -0x8000_0000 <= x < 0x8000_0000

  /** A Kotlin `Long`. */
  newtype Int64 = x: int | -0x8000_0000_0000_0000 <= x < 0x8000_0000_0000_0000

  predicate InRange(x: int) {
    MIN <= x <= MAX
  }

  /** The 32-bit value that a mathematical result wraps around to. */
  function Wrap(x: int): (r: Int32)
    ensures InRange(x) ==> r as int == x
  {
    ((x - MIN) % MODULUS + MIN) as Int32
  }

  /** Kotlin `a + b` on `Int`. */
  function Add(a: Int32, b: Int32): Int32 {
    Wrap(a as int + b as int)
  }

  /** Kotlin `a * b` on `Int`. */
  function Mul(a: Int32, b: Int32): Int32 {
    Wrap(a as int * b as int)
  }

  /** Kotlin unary `-a` on `Int`; `-Int.MIN_VALUE` is `Int.MIN_VALUE`. */
  function Neg(a: Int32): Int32 {
    Wrap(-(a as int))
  }

  /** The two's complement bit pattern of an `Int`. */
  function Bits(a: Int32): bv32 {
    (if a < 0 then a as int + MODULUS else a as int) as bv32
  }

  /** The `Int` whose bit pattern is `b`. */
  function FromBits(b: bv32): Int32 {
    var u := b as int;
    (if u > MAX then u - MODULUS else u) as Int32
  }

  /** Kotlin's infix `a and b` on `Int`. */
  function BitAnd(a: Int32, b: Int32): Int32 {
    FromBits(Bits(a) & Bits(b))
  }

  /** Subtracting whole multiples of the modulus does not change the residue. */
  lemma ModShift(a: int, q: int)
    ensures (a - q * MODULUS) % MODULUS == a % MODULUS
  {
    var d, r := a / MODULUS, a % MODULUS;
    assert a == d * MODULUS + r;
    assert a - q * MODULUS == (d - q) * MODULUS + r;
  }

  /** Wrapping an intermediate result and wrapping only at the end agree. */
  lemma WrapAddWrap(x: int, y: int)
    ensures Wrap(Wrap(x) as int + y) == Wrap(x + y)
  {
    var q := (x - MIN) / MODULUS;
    assert (x - MIN) % MODULUS == x - MIN - q * MODULUS;
    ModShift(x + y - MIN, q);
  }

  /** Kotlin `Int` addition is addition modulo 2^32. */
  lemma WrapSum(x: int, y: int)
    ensures Wrap(Wrap(x) as int + Wrap(y) as int) == Wrap(x + y)
  {
    WrapAddWrap(x, Wrap(y) as int);
    WrapAddWrap(y, x);
  }

  /** Scaling a wrapped value and wrapping again is wrapping once. */
  lemma WrapScaleWrap(k: int, x: int, y: int)
    ensures Wrap(k * Wrap(x) as int + y) == Wrap(k * x + y)
  {
    var q := (x - MIN) / MODULUS;
    assert Wrap(x) as int == x - q * MODULUS;
    assert k * (x - q * MODULUS) == k * x - (k * q) * MODULUS;
    ModShift(k * x + y - MIN, k * q);
  }
}
