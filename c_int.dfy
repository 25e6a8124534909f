/**
 * C's integer division and remainder by a positive divisor. C truncates the
 * quotient toward zero, so the remainder takes the sign of the dividend;
 * Dafny's own `/` and `%` are Euclidean and differ for negative dividends.
 */
module CInt {

  /** `a / b` in C, for `b > 0`. */
  function Quot(a: int, b: int): (q: int)
    requires b > 0
    ensures a >= 0 ==> 0 <= a - b * q < b
    ensures a < 0 ==> -b < a - b * q <= 0
    ensures -b < a < b ==> q == 0
    ensures b <= a < 2 * b ==> q == 1
  {
    if -b < a < b then 0
    else if b <= a < 2 * b then 1
    else if a >= 0 then a / b
    else -((-a) / b)
  }

  /** `a % b` in C, for `b > 0`. */
  function Rem(a: int, b: int): (r: int)
    requires b > 0
    ensures a == b * Quot(a, b) + r
    ensures a >= 0 ==> 0 <= r < b
    ensures a < 0 ==> -b < r <= 0
    ensures -b < a < b ==> r == a
    ensures b <= a < 2 * b ==> r == a - b
  {
    a - b * Quot(a, b)
  }

  function Max(a: int, b: int): int { if a >= b then a else b }
  function Min(a: int, b: int): int { if a <= b then a else b }
}
