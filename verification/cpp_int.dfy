/**
 The integer semantics of C++ that differ from Dafny's. C++ `/` truncates
 toward zero and `%` takes the sign of the dividend, whereas Dafny's `/` and
 `%` are Euclidean; converting an `int` to `uint8_t` keeps the value modulo
 256. The gene operations use all three, so they are written out here.
 */
module CppInt {

  /** The values of a C++ `uint8_t`. */
  type uint8 = x: int | 0 <= x < 256

  /** `a / b` in C++ for a positive divisor: the quotient truncated toward zero. */
  function TruncDiv(a: int, b: int): (q: int)
    requires b > 0
    ensures 0 <= a ==> 0 <= b * q <= a < b * (q + 1)
    ensures a < 0 ==> b * (q - 1) < a <= b * q <= 0
  {
    if a >= 0 then
      DivBounds(a, b);
      a / b
    else
      DivBounds(-a, b);
      -((-a) / b)
  }

  /** Euclidean division of a non-negative value brackets it between
      consecutive multiples of the divisor. */
  lemma DivBounds(a: int, b: int)
    requires a >= 0 && b > 0
    ensures 0 <= b * (a / b) <= a < b * (a / b + 1)
  {
  }

  /** The product of two non-negative values is non-negative. */
  lemma MulNonNegative(x: int, y: int)
    requires x >= 0 && y >= 0
    ensures x * y >= 0
  {
  }

  /** `a % b` in C++ for a positive divisor: the remainder left by truncating
      division, which has the sign of the dividend. */
  function TruncRem(a: int, b: int): (m: int)
    requires b > 0
    ensures a == b * TruncDiv(a, b) + m
    ensures 0 <= a ==> 0 <= m < b
    ensures a < 0 ==> -b < m <= 0
  {
    if a >= 0 then a % b else -((-a) % b)
  }

  /** The conversion of an `int` to `uint8_t`: the unique value in [0, 256)
      congruent to `v` modulo 256. */
  function ToUint8(v: int): (r: uint8)
    ensures 0 <= v < 256 ==> r == v
    ensures (v - r) % 256 == 0
  {
    v % 256
  }

  /** Dafny's `%` is determined by any decomposition `v == b * q + r` with
      `0 <= r < b`: the remainder of a division is unique. */
  lemma ModOfDecomposition(v: int, b: int, q: int, r: int)
    requires b > 0 && 0 <= r < b
    requires v == b * q + r
    ensures v % b == r
    ensures v / b == q
  {
    var q0, r0 := v / b, v % b;
    assert v == b * q0 + r0;
    if q > q0 {
      assert b * (q - q0 - 1) == b * q - b * q0 - b;
      MulNonNegative(b, q - q0 - 1);
    } else if q < q0 {
      assert b * (q0 - q - 1) == b * q0 - b * q - b;
      MulNonNegative(b, q0 - q - 1);
    }
  }

  /** Adding a multiple of the modulus does not change the remainder. */
  lemma ModAddMultiple(v: int, b: int, k: int)
    requires b > 0
    ensures (v + b * k) % b == v % b
  {
    ModOfDecomposition(v + b * k, b, v / b + k, v % b);
  }

  /** The remainder of a sum depends only on the remainders of its terms. */
  lemma ModOfSum(u: int, v: int, b: int)
    requires b > 0
    ensures (u % b + v) % b == (u + v) % b
  {
    ModAddMultiple(u % b + v, b, u / b);
  }
}
