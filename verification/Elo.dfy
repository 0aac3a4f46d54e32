/** Fixed-point Elo arithmetic of the auditor reputation pallet.

    A 33.31 signed fixed-point number is represented by its raw 64-bit integer,
    that is, by its value multiplied by 2^31. Sums, products, quotients and the
    conversion to `u32` wrap around as they do in an optimised build.
  */
module Elo {
  import opened Prelude

  /** The raw representation of 1. */
  const ONE: int := 0x8000_0000

  const RAW_BOUND: int := 0x8000_0000_0000_0000
  const RAW_COUNT: int := 0x1_0000_0000_0000_0000

  /** A non-negative raw value. */
  type PowRaw = x: int | 0 <= x < RAW_BOUND

  /** The external power function with base 10, from raw exponent to raw result. It may fail. */
  type Pow = int -> Option<PowRaw>

  function Wrap(x: int): int {
    (x + RAW_BOUND) % RAW_COUNT - RAW_BOUND
  }

  /** Integer division that truncates toward zero. */
  function TruncDiv(a: int, b: int): int
    requires b != 0
  {
    if (a >= 0) == (b > 0) then Abs(a) / Abs(b) else -(Abs(a) / Abs(b))
  }

  function FixedFrom(n: int): int {
    n * ONE
  }

  function FixedDiv(a: int, b: int): int
    requires b != 0
  {
    Wrap(TruncDiv(a * ONE, b))
  }

  function FixedMul(a: int, b: int): int {
    Wrap(a * b / ONE)
  }

  /** The integer nearest to a raw value, ties going away from zero. */
  function RoundToInt(x: int): int {
    if x >= 0 then (x + ONE / 2) / ONE else -((-x + ONE / 2) / ONE)
  }

  function ToU32(n: int): U32 {
    n % U32_COUNT
  }

  /** The raw exponent (scoreB - scoreA) / 400. */
  function Exponent(scoreA: U32, scoreB: U32): int {
    FixedDiv(Wrap(FixedFrom(scoreB) - FixedFrom(scoreA)), FixedFrom(400))
  }

  /** The score after a game with the given actual result (1 or 0) and raw expected result. */
  function NewScore(k: int, score: U32, actual: int, expected: int): U32 {
    var raw := Wrap(FixedFrom(score) + FixedMul(FixedFrom(k), Wrap(FixedFrom(actual) - expected)));
    ToU32(RoundToInt(raw))
  }

  datatype EloRank = EloRank(k: int) {

    function CalculateExpected(pow: Pow, scoreA: U32, scoreB: U32): Option<int> {
      match pow(Exponent(scoreA, scoreB))
      case None => None
      case Some(p) => Some(FixedDiv(FixedFrom(1), Wrap(FixedFrom(1) + p)))
    }

    /** New scores of winner and looser, or None when the power function fails. */
    function Calculate(pow: Pow, winner: U32, looser: U32): Option<(U32, U32)> {
      var expectedA := CalculateExpected(pow, winner, looser);
      var expectedB := CalculateExpected(pow, looser, winner);
      if expectedA.None? || expectedB.None? then
        None
      else
        Some((NewScore(k, winner, 1, expectedA.value), NewScore(k, looser, 0, expectedB.value)))
    }
  }
}
