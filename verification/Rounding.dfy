/** What the block codecs share: the block size, the guarded inverse of a scale, rounding and clamping. */
module Rounding {

  /** Values per block. */
  const BLOCK: nat := 32

  /** 1 / d, or 0 for a block whose scale vanishes. */
  function Inverse(d: real): real {
    if d == 0.0 then 0.0 else 1.0 / d
  }

  /** The nearest integer, halves away from zero. */
  function Round(x: real): int {
    if x >= 0.0 then (x + 0.5).Floor else -((-x + 0.5).Floor)
  }

  function Clamp(x: int, lo: int, hi: int): int
    requires lo <= hi
  {
    if x < lo then lo else if x > hi then hi else x
  }

  /** No integer is nearer than half a unit. */
  lemma RoundNear(x: real)
    ensures x - 0.5 <= Round(x) as real <= x + 0.5
  {
  }

  lemma RoundOfInt(n: int)
    ensures Round(n as real) == n
  {
  }

  /** Integer bounds survive rounding. */
  lemma RoundBetween(x: real, lo: int, hi: int)
    requires lo as real <= x <= hi as real
    ensures lo <= Round(x) <= hi
  {
    RoundNear(x);
  }

  /** Halves go away from zero, and rounding is odd. */
  lemma RoundHalves(n: nat, x: real)
    ensures Round(n as real + 0.5) == n + 1 && Round(-x) == -Round(x)
  {
  }
}
