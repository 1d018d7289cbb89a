/** Bounded integer random numbers (CubeKiller/Number.swift).
    The random source is not modelled: every draw is an explicit argument that
    satisfies IsUniformDraw, which is what arc4random_uniform guarantees. */
module Number {

  const INT64_MIN: int := -0x8000_0000_0000_0000
  const INT64_MAX: int := 0x7FFF_FFFF_FFFF_FFFF
  const UINT32_MAX: int := 0xFFFF_FFFF

  /** Swift's `Int` on a 64-bit platform. */
  predicate IsInt64(x: int) {
    INT64_MIN <= x <= INT64_MAX
  }

  /** A value `arc4random_uniform(upper)` may return: below `upper`, and 0 when
      `upper` is 0 or 1. */
  predicate IsUniformDraw(upper: nat, draw: nat) {
    draw == 0 || draw < upper
  }

  /** `Int.random(min:max:)`: the draw from `arc4random_uniform(max - min + 1)`
      shifted by `min`. The conversion `UInt32(max - min + 1)` traps unless the
      span fits an unsigned 32-bit integer, hence the second requires. */
  function RandomInt(min: int, max: int, draw: nat): (r: int)
    requires IsInt64(min) && IsInt64(max)
    requires 0 <= max - min + 1 <= UINT32_MAX
    requires IsUniformDraw(max - min + 1, draw)
    ensures min <= max ==> min <= r <= max
    ensures min == max ==> r == min
    ensures max < min ==> r == min
    ensures IsInt64(r)
  {
    draw + min
  }

  /** Two different draws give two different results. */
  lemma RandomIntInjective(min: int, max: int, d1: nat, d2: nat)
    requires IsInt64(min) && IsInt64(max)
    requires 0 <= max - min + 1 <= UINT32_MAX
    requires IsUniformDraw(max - min + 1, d1) && IsUniformDraw(max - min + 1, d2)
    ensures RandomInt(min, max, d1) == RandomInt(min, max, d2) ==> d1 == d2
  {
  }

  /** Every value of the closed range is the result of exactly the draw v - min. */
  lemma RandomIntCoversRange(min: int, max: int, v: int)
    requires IsInt64(min) && IsInt64(max)
    requires 0 <= max - min + 1 <= UINT32_MAX
    requires min <= v <= max
    ensures IsUniformDraw(max - min + 1, v - min)
    ensures RandomInt(min, max, v - min) == v
  {
  }
}
