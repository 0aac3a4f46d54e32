/** What one Elo game does to the two scores, for every non-negative outcome of the
    power function: exact values, bounds, near-conservation and monotonicity.
  */
module EloProofs {
  import opened Prelude
  import opened Elo

  const HALF: int := ONE / 2

  /** The expected result of a player, from the raw power result: 1 / (1 + p), truncated. */
  function Expected(p: nat): int {
    ONE * ONE / (ONE + p)
  }

  /** The integer nearest to a raw value, ties going up. */
  function HalfUp(x: int): int {
    (x + HALF) / ONE
  }

  /** The integer nearest to a raw value, ties going down. */
  function HalfDown(x: int): int {
    (x + HALF - 1) / ONE
  }

  /** What the winner gains. */
  function Gain(k: int, p: nat): int {
    HalfUp(k * (ONE - Expected(p)))
  }

  /** What the looser loses. */
  function Loss(k: int, q: nat): int {
    HalfDown(k * Expected(q))
  }

  /** The coefficients for which a product with an expected value stays representable. */
  predicate ValidK(k: int) {
    0 <= k < ONE
  }

  /** The winner's new score is still a `u32`. */
  predicate WinnerFits(k: int, winner: U32, p: nat) {
    winner + Gain(k, p) < U32_COUNT
  }

  /** The looser's new score, before rounding, is above minus one half. */
  predicate LooserFits(k: int, looser: U32, q: nat) {
    2 * k * Expected(q) < (2 * looser + 1) * ONE
  }

  /** The winner's new score. A sum that passes the end of the `u32` range starts again at zero;
      a raw sum that overflows is negative, where ties are rounded the other way. */
  function WinnerAfter(k: int, winner: U32, p: nat): int {
    if WinnerFits(k, winner, p) then winner + Gain(k, p)
    else Max(0, winner + HalfDown(k * (ONE - Expected(p))) - U32_COUNT)
  }

  /** The looser's new score. A negative raw score, for which ties are rounded the other way,
      is counted down from the end of the `u32` range. */
  function LooserAfter(k: int, looser: U32, q: nat): int {
    if LooserFits(k, looser, q) then looser - Loss(k, q)
    else looser - HalfUp(k * Expected(q)) + U32_COUNT
  }

  lemma {:induction false} ExpectedBounds(p: nat)
    ensures 0 <= Expected(p) <= ONE
    ensures Expected(p) * (ONE + p) <= ONE * ONE < (Expected(p) + 1) * (ONE + p)
  {
  }

  lemma {:induction false} DivUnique(a: int, b: int, q: int)
    requires b > 0 && q * b <= a < (q + 1) * b
    ensures a / b == q
  {
    if a / b < q {
      MulMono(a / b + 1, q, b);
    } else if a / b > q {
      MulMono(q + 1, a / b, b);
    }
  }

  lemma {:induction false} MulMono(x: int, y: int, z: int)
    requires x <= y && 0 <= z
    ensures x * z <= y * z
  {
  }

  /** A larger power result never gives a larger expectation. */
  lemma {:induction false} ExpectedMonotone(p: nat, q: nat)
    requires p <= q
    ensures Expected(q) <= Expected(p)
  {
    ExpectedBounds(p);
    ExpectedBounds(q);
    if Expected(p) + 1 <= Expected(q) {
      MulMono(Expected(p) + 1, Expected(q), ONE + p);
      MulMono(ONE + p, ONE + q, Expected(q));
      assert false;
    }
  }

  lemma {:induction false} WrapId(x: int)
    requires -RAW_BOUND <= x < RAW_BOUND
    ensures Wrap(x) == x
  {
  }

  /** Truncated division by the wrapped sum 1 + p is the plain quotient: where the sum
      overflows, both are zero. */
  lemma {:induction false} ReciprocalIs(p: PowRaw)
    ensures Wrap(FixedFrom(1) + p) != 0
    ensures FixedDiv(FixedFrom(1), Wrap(FixedFrom(1) + p)) == Expected(p)
  {
    ExpectedBounds(p);
    var d := Wrap(FixedFrom(1) + p);
    if ONE + p < RAW_BOUND {
      WrapId(ONE + p);
    } else {
      assert d == ONE + p - RAW_COUNT;
      DivUnique(ONE * ONE, Abs(d), 0);
      DivUnique(ONE * ONE, ONE + p, 0);
    }
  }

  lemma {:induction false} ScaledExpectedBounds(k: int, e: int)
    requires ValidK(k) && 0 <= e <= ONE
    ensures 0 <= k * e <= k * ONE && 0 <= k * (ONE - e) <= k * ONE
    ensures k * (ONE - e) == k * ONE - k * e
  {
  }

  lemma {:induction false} FixedMulIs(k: int, d: int)
    requires -RAW_BOUND <= k * d < RAW_BOUND
    ensures FixedMul(FixedFrom(k), d) == k * d
  {
  }

  /** The winner's new score: exact while it fits, and otherwise wrapped to at most k. */
  lemma {:induction false} WinnerIs(k: int, winner: U32, p: PowRaw)
    requires ValidK(k)
    ensures 0 <= Gain(k, p) <= k
    ensures NewScore(k, winner, 1, Expected(p)) == WinnerAfter(k, winner, p)
    ensures !WinnerFits(k, winner, p) ==> WinnerAfter(k, winner, p) <= k && WinnerAfter(k, winner, p) < winner
  {
    var e := Expected(p);
    ExpectedBounds(p);
    ScaledExpectedBounds(k, e);
    WrapId(ONE - e);
    FixedMulIs(k, ONE - e);
    WinnerRounded(k, winner, k * (ONE - e));
  }

  lemma {:induction false} WinnerRounded(k: int, winner: U32, x: int)
    requires ValidK(k) && 0 <= x <= k * ONE
    ensures 0 <= HalfDown(x) <= HalfUp(x) <= k
    ensures ToU32(RoundToInt(Wrap(FixedFrom(winner) + x))) ==
      if winner + HalfUp(x) < U32_COUNT then winner + HalfUp(x) else Max(0, winner + HalfDown(x) - U32_COUNT)
  {
    var raw := winner * ONE + x;
    if raw < RAW_BOUND {
      WrapId(raw);
      assert (raw + HALF) / ONE == winner + HalfUp(x);
    } else {
      assert Wrap(raw) == raw - RAW_COUNT;
      assert (RAW_COUNT - raw + HALF) / ONE == 2 * U32_COUNT - winner - HalfDown(x);
    }
  }

  /** The looser's new score: exact while it fits, and otherwise wrapped to within k of the
      end of the range. */
  lemma {:induction false} LooserIs(k: int, looser: U32, q: PowRaw)
    requires ValidK(k)
    ensures 0 <= Loss(k, q) <= k
    ensures LooserFits(k, looser, q) ==> Loss(k, q) <= looser
    ensures NewScore(k, looser, 0, Expected(q)) == LooserAfter(k, looser, q)
    ensures !LooserFits(k, looser, q) ==>
              looser < LooserAfter(k, looser, q) && U32_COUNT - k <= LooserAfter(k, looser, q)
  {
    var e := Expected(q);
    ExpectedBounds(q);
    ScaledExpectedBounds(k, e);
    WrapId(-e);
    assert k * (-e) == -(k * e);
    FixedMulIs(k, -e);
    assert 2 * k * e == 2 * (k * e);
    LooserRounded(k, looser, k * e);
  }

  lemma {:induction false} LooserRounded(k: int, looser: U32, y: int)
    requires ValidK(k) && 0 <= y <= k * ONE
    ensures 0 <= HalfDown(y) <= HalfUp(y) <= k
    ensures
      var newScore := ToU32(RoundToInt(Wrap(FixedFrom(looser) - y)));
      if 2 * y < (2 * looser + 1) * ONE
      then HalfDown(y) <= looser && newScore == looser - HalfDown(y)
      else looser < HalfUp(y) && newScore == looser - HalfUp(y) + U32_COUNT
  {
    WrapId(looser * ONE - y);
  }

  /** What the source computes for one player, in terms of the external result for its game. */
  lemma {:induction false} ExpectedIs(elo: EloRank, pow: Pow, scoreA: U32, scoreB: U32)
    ensures
      var p := pow(Exponent(scoreA, scoreB));
      elo.CalculateExpected(pow, scoreA, scoreB) == if p.None? then None else Some(Expected(p.value))
  {
    var p := pow(Exponent(scoreA, scoreB));
    if p.Some? {
      ReciprocalIs(p.value);
    }
  }

  /** Both powers that a game asks for exist. */
  predicate PowersExist(pow: Pow, winner: U32, looser: U32) {
    pow(Exponent(winner, looser)).Some? && pow(Exponent(looser, winner)).Some?
  }

  /** `calculate` in closed form: it succeeds iff both powers exist, and then gives exactly
      these two scores. Gain and loss lie between 0 and k; a score that does not fit moves the
      wrong way, the winner's to at most k, the looser's to within k of the end of the range. */
  lemma {:induction false} CalculateIs(elo: EloRank, pow: Pow, winner: U32, looser: U32)
    requires ValidK(elo.k)
    ensures elo.Calculate(pow, winner, looser).Some? <==> PowersExist(pow, winner, looser)
    ensures PowersExist(pow, winner, looser) ==>
      var p, q := pow(Exponent(winner, looser)).value, pow(Exponent(looser, winner)).value;
      var r := elo.Calculate(pow, winner, looser).value;
      && r.0 == WinnerAfter(elo.k, winner, p) && r.1 == LooserAfter(elo.k, looser, q)
      && 0 <= Gain(elo.k, p) <= elo.k && 0 <= Loss(elo.k, q) <= elo.k
      && (!WinnerFits(elo.k, winner, p) ==> r.0 < winner && r.0 <= elo.k)
      && (!LooserFits(elo.k, looser, q) ==> r.1 > looser && U32_COUNT - elo.k <= r.1)
  {
    ExpectedIs(elo, pow, winner, looser);
    ExpectedIs(elo, pow, looser, winner);
    var p, q := pow(Exponent(winner, looser)), pow(Exponent(looser, winner));
    if p.Some? && q.Some? {
      WinnerIs(elo.k, winner, p.value);
      LooserIs(elo.k, looser, q.value);
    }
  }
}
