// Fixed-width C integer conversions used across the firmware model.
// Dafny's int is unbounded; every place where the C code stores a value
// into a narrower type goes through one of these functions.

module Ints {

  /** An optional value: a null pointer or a missing entry is None. */
  datatype Option<T> = None | Some(value: T)

  const U8_LIMIT: int := 0x100
  const U16_LIMIT: int := 0x1_0000

  /** A value that fits an unsigned char. */
  predicate IsU8(v: int) { 0 <= v < U8_LIMIT }

  /** A value that fits a uint16_t. */
  predicate IsU16(v: int) { 0 <= v < U16_LIMIT }

  /** The values of an unsigned char. */
  type Uint8 = v: int | 0 <= v < 0x100

  /** The values of a uint16_t. */
  type Uint16 = v: int | 0 <= v < 0x1_0000

  /** A value that fits an int16_t. */
  predicate IsI16(v: int) { -0x8000 <= v < 0x8000 }

  /** Conversion of any integer to uint8_t (reduction modulo 2^8). */
  function U8(v: int): (r: int)
    ensures IsU8(r)
    ensures IsU8(v) ==> r == v
  {
    v % U8_LIMIT
  }

  /** Conversion of any integer to uint16_t (reduction modulo 2^16). */
  function U16(v: int): (r: int)
    ensures IsU16(r)
    ensures IsU16(v) ==> r == v
  {
    v % U16_LIMIT
  }

  /** Conversion of any integer to int16_t (two's complement wrap). */
  function I16(v: int): (r: int)
    ensures IsI16(r)
    ensures IsI16(v) ==> r == v
  {
    var u := v % U16_LIMIT;
    if u < 0x8000 then u else u - U16_LIMIT
  }

  /** Conversion of any integer to int8_t (two's complement wrap). */
  function I8(v: int): (r: int)
    ensures -0x80 <= r < 0x80
    ensures -0x80 <= v < 0x80 ==> r == v
  {
    var u := v % U8_LIMIT;
    if u < 0x80 then u else u - U8_LIMIT
  }

  /** C's `/` on int: the quotient is truncated toward zero. */
  function CDiv(a: int, b: int): (q: int)
    requires b != 0
    ensures a >= 0 && b > 0 ==> q == a / b
    ensures a <= 0 && b > 0 ==> q == -((-a) / b)
  {
    var m := (if a < 0 then -a else a) / (if b < 0 then -b else b);
    if (a < 0) == (b < 0) then m else -m
  }

  function Abs(v: int): (r: nat)
    ensures r == v || r == -v
  {
    if v < 0 then -v else v
  }

  function Min(a: int, b: int): int { if a <= b then a else b }
  function Max(a: int, b: int): int { if a <= b then b else a }

  // Small facts of integer arithmetic the solver does not find alone.

  lemma MulAtLeast(k: int, d: int)
    requires k >= 1 && d > 0
    ensures k * d >= d
  {
  }

  lemma MulPred(k: int, d: int)
    ensures (k - 1) * d == k * d - d
  {
  }

  /** Counting up in an unsigned char wraps like counting in int and then converting. */
  lemma U8Succ(n: int)
    ensures U8(U8(n) + 1) == U8(n + 1)
  {
  }

  /** Euclidean division has a unique quotient. */
  lemma DivUnique(n: int, d: int, q: int, r: int)
    requires d > 0 && 0 <= r < d && n == q * d + r
    ensures n / d == q
  {
    var q' := n / d;
    assert (q - q') * d == n % d - r;
    if q - q' >= 1 {
      MulAtLeast(q - q', d);
    } else if q' - q >= 1 {
      MulAtLeast(q' - q, d);
    }
  }

  lemma DivStep(a: int, d: int)
    requires a >= 0 && d > 0
    ensures (a + d) / d == a / d + 1
  {
    DivUnique(a + d, d, a / d + 1, a % d);
  }

  lemma DivExact(a: int, b: int, d: int)
    requires d > 0 && 0 <= a < d
    ensures (a + b * d) / d == b
  {
    DivUnique(a + b * d, d, b, a);
  }
}
