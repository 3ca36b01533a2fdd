/**
 * The C++ arithmetic the collision code relies on, stated in Dafny's
 * terms: truncating integer division and remainder, the engine's clamp and
 * round_to_int helpers, and a two-component vector of reals standing for
 * the engine's float vec2.
 */
module Arith {

  /** A float vec2, idealised as a pair of reals. */
  datatype Vec2 = Vec2(x: real, y: real)

  /** An integer point (ivec2). */
  datatype Point = Point(x: int, y: int)

  function Abs(r: real): real { if r < 0.0 then -r else r }

  /** C++ `a / b` on int: the quotient truncated toward zero. */
  function TruncDiv(a: int, b: int): (q: int)
    requires b > 0
    ensures a >= 0 ==> q * b <= a < q * b + b
    ensures a < 0 ==> q * b - b < a <= q * b
  {
    if a >= 0 then a / b else -((-a) / b)
  }

  /** C++ `a % b` on int: the remainder takes the sign of the dividend. */
  function TruncMod(a: int, b: int): (r: int)
    requires b > 0
    ensures a == TruncDiv(a, b) * b + r
    ensures a >= 0 ==> 0 <= r < b
    ensures a < 0 ==> -b < r <= 0
  {
    a - TruncDiv(a, b) * b
  }

  /** C++ `(int)r` for a real r: truncation toward zero. */
  function TruncReal(r: real): (n: int)
    ensures r >= 0.0 ==> n as real <= r < n as real + 1.0
    ensures r < 0.0 ==> n as real - 1.0 < r <= n as real
  {
    if r >= 0.0 then r.Floor else -((-r).Floor)
  }

  /**
   * The engine's clamp: the lower bound is tested first, so with an empty
   * range (hi < lo) a value above hi yields hi.
   */
  function Clamp(v: int, lo: int, hi: int): (r: int)
    ensures lo <= hi ==> lo <= r <= hi
    ensures lo <= v <= hi ==> r == v
    ensures v < lo ==> r == lo
    ensures lo <= v && hi < v ==> r == hi
  {
    if v < lo then lo else if v > hi then hi else v
  }

  /**
   * round_to_int: half away from zero, `f > 0 ? (int)(f + 0.5) : (int)(f - 0.5)`.
   */
  function RoundToInt(f: real): (n: int)
    ensures f - 0.5 <= n as real <= f + 0.5
    ensures f > 0.0 ==> n as real > f - 0.5
    ensures f <= 0.0 ==> n as real < f + 0.5
  {
    if f > 0.0 then TruncReal(f + 0.5) else TruncReal(f - 0.5)
  }

  /** round_to_int leaves a whole number unchanged. */
  lemma RoundInt(n: int)
    ensures RoundToInt(n as real) == n
  {
  }
}
