/**
 * The few JavaScript number operations the handlers rely on, on exact
 * numbers: `Math.round`, the safe-integer bounds and the powers of two used
 * by the tile window.
 */
module JsNumber {

  /** `Number.MAX_SAFE_INTEGER`, 2^53 - 1. */
  const MaxSafeInteger: int := 9007199254740991

  /** `Number.MIN_SAFE_INTEGER`, -(2^53 - 1). */
  const MinSafeInteger: int := -9007199254740991

  /** `Math.round`: the nearest integer, halves rounded up (towards +infinity). */
  function Round(x: real): (r: int)
    ensures r as real <= x + 0.5 < r as real + 1.0
  {
    (x + 0.5).Floor
  }

  /** 2^n for a natural exponent. */
  function Pow2(n: nat): (p: nat)
    ensures p >= 1
  {
    if n == 0 then 1 else 2 * Pow2(n - 1)
  }
}
