/**
 * `to_count` of src/main/buzz.h: a measured voltage (a `uint16_t`) becomes a
 * buzzer pitch `hz`, from 4000 Hz at 0 down to 30 Hz at 500 and 7 Hz at 503, and then the
 * timer count `10000 * 4000 / hz`. All arithmetic is on `uint32_t`, so every
 * result is reduced modulo 2^32 here.
 */
module Buzz {
  /** 2^32: `uint32_t` arithmetic works modulo this. */
  const U32: nat := 0x1_0000_0000

  /** A `uint16_t` argument. */
  predicate IsUint16(v: int)
  {
    0 <= v < 0x1_0000
  }

  /** An `int` result stored in a `uint32_t`. */
  function Wrap32(x: int): (r: nat)
    ensures r < U32
    ensures 0 <= x < U32 ==> r == x
    ensures -(U32 as int) <= x < 0 ==> r == x + U32
  {
    x % U32
  }

  /** `uint32_t(4000 - 30) * voltage`: the product fits in 32 bits for every `uint16_t` voltage. */
  function Product(voltage: int): (p: nat)
    requires IsUint16(voltage)
    ensures p == 3970 * voltage && p <= 3970 * 0xFFFF
  {
    Wrap32(3970 * voltage)
  }

  /**
   * The pitch `uint32_t(4000) - Product(voltage) / 500`. Up to 503 it lies in
   * [7, 4000], so the subtraction does not wrap; from 504 on it wraps to a value
   * above 40,000,000. It is never 0.
   */
  function Hz(voltage: int): (hz: nat)
    requires IsUint16(voltage)
    ensures 0 < hz < U32
    ensures voltage <= 503 ==> 7 <= hz <= 4000 && hz == 4000 - 3970 * voltage / 500
    ensures voltage >= 504 ==> hz > 40000000
  {
    var q := Product(voltage) / 500;
    assert voltage <= 503 ==> q <= 3993;
    assert voltage >= 504 ==> 4001 <= q <= 520359;
    Wrap32(4000 - q)
  }

  /** `to_count(voltage)`: the timer count for the pitch; 0 once the pitch has wrapped. */
  function ToCount(voltage: int): (r: nat)
    requires IsUint16(voltage)
    ensures r < U32
    ensures voltage <= 503 ==> 10000 <= r <= 5714285
    ensures voltage >= 504 ==> r == 0
  {
    var hz := Hz(voltage);
    var n := Wrap32(10000 * 4000);
    assert n == 40000000;
    DivAtMost(n, hz);
    if voltage <= 503 then
      DivAntitone(n, 4000, hz);
      DivAntitone(n, hz, 7);
      n / hz
    else
      DivBelow(n, hz);
      n / hz
  }

  /** For a fixed dividend, a larger divisor gives a smaller quotient. */
  lemma DivAntitone(a: nat, d1: nat, d2: nat)
    requires 0 < d2 <= d1
    ensures a / d1 <= a / d2
  {
    var q := a / d1;
    assert q * d1 <= a;
    MulMonotone(q, d2, d1);
    if q > a / d2 {
      MulMonotone(d2, a / d2 + 1, q);
      assert false;
    }
  }

  /** A quotient by a positive divisor is at most the dividend. */
  lemma DivAtMost(a: nat, d: nat)
    requires 0 < d
    ensures a / d <= a
  {
    DivAntitone(a, d, 1);
  }

  /** A dividend below the divisor gives 0. */
  lemma DivBelow(a: nat, d: nat)
    requires 0 <= a < d
    ensures a / d == 0
  {
  }

  /** Multiplying by a natural number keeps the order. */
  lemma MulMonotone(q: nat, x: nat, y: nat)
    requires x <= y
    ensures q * x <= q * y
  {
  }

  /** At 0 V the pitch is 4000 Hz and the count 10000. */
  lemma ToCountAtZero()
    ensures Hz(0) == 4000 && ToCount(0) == 10000
  {
  }

  /** At voltage 500 the pitch is 30 Hz and the count 1333333. */
  lemma ToCountAt500()
    ensures Hz(500) == 30 && ToCount(500) == 1333333
  {
  }

  /** Up to 503, a higher voltage gives a lower pitch and a count at least as large. */
  lemma {:induction false} ToCountMonotone(v1: int, v2: int)
    requires IsUint16(v1) && IsUint16(v2) && v1 <= v2 <= 503
    ensures Hz(v2) <= Hz(v1)
    ensures ToCount(v1) <= ToCount(v2)
  {
    assert 3970 * v1 / 500 <= 3970 * v2 / 500;
    DivAntitone(40000000, Hz(v1), Hz(v2));
  }
}
