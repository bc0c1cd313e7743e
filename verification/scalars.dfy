/** The two scalar types the containers hold: a 32-bit signed integer and a
    `float_t`, taken to be a 32-bit IEEE-754 float (binary32).

    Integers are unbounded in Dafny, so `Int32` is a subset type; an addition
    whose exact result leaves it is signed overflow, which is undefined in the
    source language and is therefore excluded by a precondition wherever it
    could happen.

    The float is modelled only on the values the containers actually reach
    from 0.0f by steps of 1.0f: the integers of magnitude at most 2^24. Every
    such integer is a float32, and the set is closed under adding or
    subtracting 1.0f with round-to-nearest-even, because 2^24 + 1 lies exactly
    half-way between the floats 2^24 and 2^24 + 2 and the tie goes back to
    2^24 (the one with the even significand). */
module Scalars {

  const INT32_MIN: int := -0x8000_0000
  const INT32_MAX: int := 0x7FFF_FFFF

  predicate InInt32(x: int) {
    INT32_MIN <= x <= INT32_MAX
  }

  type Int32 = x: int | INT32_MIN <= x <= INT32_MAX

  /** 2^24, the largest magnitude below which every integer is a float32. */
  const FLOAT_EXACT_LIMIT: int := 0x100_0000

  predicate IsExactFloat(x: int) {
    -FLOAT_EXACT_LIMIT <= x <= FLOAT_EXACT_LIMIT
  }

  /** An integral float32 value of magnitude at most 2^24. */
  type ExactFloat = x: int | -FLOAT_EXACT_LIMIT <= x <= FLOAT_EXACT_LIMIT

  /** 2^25: between 2^24 and this magnitude the float32 values are the even
      integers. */
  const FLOAT_EVEN_LIMIT: int := 0x200_0000

  /** The float32 nearest to the integer `n`, ties to even, for |n| <= 2^25.
      Up to 2^24 in magnitude every integer is a float32; between 2^24 and
      2^25 the floats are the even integers, and of the two even neighbours
      of an odd `n` the one with the even significand is the multiple of 4. */
  function RoundToFloat32(n: int): (r: int)
    requires -FLOAT_EVEN_LIMIT <= n <= FLOAT_EVEN_LIMIT
    ensures -1 <= r - n <= 1
    ensures IsExactFloat(r) || r % 2 == 0
    ensures IsExactFloat(n) ==> r == n
  {
    if IsExactFloat(n) || n % 2 == 0 then n
    else if (n - 1) % 4 == 0 then n - 1
    else n + 1
  }

  /** `x + d` in float32 arithmetic, for `d` one of 1.0f and -1.0f. */
  function FloatAddUnit(x: ExactFloat, d: int): (r: ExactFloat)
    requires d == 1 || d == -1
    ensures r == RoundToFloat32(x + d)
  {
    if IsExactFloat(x + d) then x + d else x
  }
}
