/** The laws of one Elo game, stated about `EloRank.Calculate` itself. */
module EloLaws {
  import opened Prelude
  import opened Elo
  import opened EloProofs

  /** Each expected value lies between 0 and 1, also where the sum 1 + pow overflows. */
  lemma {:induction false} ExpectedInUnitInterval(elo: EloRank, pow: Pow, scoreA: U32, scoreB: U32)
    ensures
      var r := elo.CalculateExpected(pow, scoreA, scoreB);
      r.Some? ==> 0 <= r.value <= ONE
  {
    ExpectedIs(elo, pow, scoreA, scoreB);
    match pow(Exponent(scoreA, scoreB))
    case None =>
    case Some(p) =>
      ExpectedBounds(p);
  }

  /** Away from the two ends of the `u32` range, the winner gains at most k and the looser
      loses at most k, and nobody moves the wrong way. */
  lemma {:induction false} ScoreBounds(elo: EloRank, pow: Pow, winner: U32, looser: U32)
    requires ValidK(elo.k)
    requires PowersExist(pow, winner, looser)
    ensures elo.Calculate(pow, winner, looser).Some?
    ensures
      var r := elo.Calculate(pow, winner, looser).value;
      && (winner + elo.k < U32_COUNT ==> winner <= r.0 <= winner + elo.k)
      && (elo.k <= looser ==> looser - elo.k <= r.1 <= looser)
  {
    CalculateIs(elo, pow, winner, looser);
    var q := pow(Exponent(looser, winner)).value;
    if elo.k <= looser {
      SafeLooserFits(elo.k, looser, q);
    }
  }

  lemma {:induction false} SafeLooserFits(k: int, looser: U32, q: nat)
    requires ValidK(k) && k <= looser
    ensures LooserFits(k, looser, q)
  {
    ExpectedBounds(q);
    ScaledExpectedBounds(k, Expected(q));
    assert 2 * k * Expected(q) == 2 * (k * Expected(q));
  }

  /** Exactly when a game moves both scores the right way: the winner's rounded gain must
      not pass the end of the `u32` range, and the looser's unrounded score must be above
      minus one half. Otherwise the conversion to `u32` wraps, and the winner is left with at
      most k points, or the looser with at least 2^32 - k. */
  lemma {:induction false} DirectionIff(elo: EloRank, pow: Pow, winner: U32, looser: U32)
    requires ValidK(elo.k)
    requires PowersExist(pow, winner, looser)
    ensures elo.Calculate(pow, winner, looser).Some?
    ensures
      var r := elo.Calculate(pow, winner, looser).value;
      && (winner <= r.0 <==> WinnerFits(elo.k, winner, pow(Exponent(winner, looser)).value))
      && (r.1 <= looser <==> LooserFits(elo.k, looser, pow(Exponent(looser, winner)).value))
      && (r.0 < winner ==> r.0 <= elo.k)
      && (r.1 > looser ==> U32_COUNT - elo.k <= r.1)
  {
    CalculateIs(elo, pow, winner, looser);
  }

  /** A match between equals moves 16 points on both sides, counted modulo 2^32: with less than
      16 points the looser ends near 2^32. */
  lemma {:induction false} EqualMatch(elo: EloRank, pow: Pow, score: U32)
    requires elo.k == 32 && pow(0) == Some(ONE)
    ensures elo.Calculate(pow, score, score).Some?
    ensures
      var (winnerNew, looserNew) := elo.Calculate(pow, score, score).value;
      && winnerNew == (if score + 16 < U32_COUNT then score + 16 else score + 16 - U32_COUNT)
      && looserNew == (if score >= 16 then score - 16 else score - 16 + U32_COUNT)
  {
    ExponentOfEqual(score);
    HalfPoint();
    CalculateIs(elo, pow, score, score);
  }

  lemma {:induction false} ExponentOfEqual(score: U32)
    ensures Exponent(score, score) == 0
  {
    DivUnique(0, FixedFrom(400), 0);
  }

  lemma {:induction false} HalfPoint()
    ensures Expected(ONE) == HALF && Gain(32, ONE) == 16 && Loss(32, ONE) == 16
  {
    DivUnique(ONE * ONE, ONE + ONE, HALF);
  }

  // ----- Near-conservation -----

  /** The deviation of p * q from 1, in raw units. */
  function ReciprocalError(p: nat, q: nat): nat {
    Abs(p * q - ONE * ONE)
  }

  predicate Reciprocal(p: nat, q: nat) {
    p * q == ONE * ONE
  }

  /** p and q are reciprocal closely enough for coefficient k. */
  predicate CloseToReciprocal(k: int, p: nat, q: nat) {
    2 * k * ReciprocalError(p, q) <= (ONE + p) * (ONE + q)
  }

  /** The two expected values differ from 1 in sum by the reciprocal error, up to two
      truncations; scaled by the product of both denominators. */
  lemma {:induction false} ExpectedSum(p: nat, q: nat)
    ensures
      var product := (ONE + p) * (ONE + q);
      var excess := (Expected(p) + Expected(q) - ONE) * product;
      && excess <= ONE * (ONE * ONE - p * q)
      && ONE * (ONE * ONE - p * q) <= excess + 2 * product
  {
    var a, b := ONE + p, ONE + q;
    ExpectedBounds(p);
    ExpectedBounds(q);
    var ra, rb := ONE * ONE - Expected(p) * a, ONE * ONE - Expected(q) * b;
    ExcessIdentity(p, q, Expected(p), Expected(q), ra, rb);
    MulMono(0, ra, b);
    MulMono(0, rb, a);
    MulMono(ra, a, b);
    MulMono(rb, b, a);
    assert a * b == b * a;
  }

  lemma {:induction false} ExcessIdentity(p: int, q: int, ep: int, eq: int, ra: int, rb: int)
    requires ra == ONE * ONE - ep * (ONE + p) && rb == ONE * ONE - eq * (ONE + q)
    ensures (ep + eq - ONE) * ((ONE + p) * (ONE + q))
         == ONE * (ONE * ONE - p * q) - ra * (ONE + q) - rb * (ONE + p)
  {
  }

  /** Cancelling a positive factor from an inequality. */
  lemma {:induction false} MulCancel(x: int, y: int, z: int)
    requires z > 0 && x * z <= y * z
    ensures x <= y
  {
  }

  /** For nearly reciprocal powers the k-fold excess is at most half a unit, and at least
      minus half a unit minus 2k raw units. */
  lemma {:induction false} ScaledExcess(k: int, p: nat, q: nat)
    requires 0 <= k && CloseToReciprocal(k, p, q)
    ensures
      var excess := Expected(p) + Expected(q) - ONE;
      -ONE - 4 * k <= 2 * (k * excess) <= ONE
    ensures p * q == ONE * ONE ==> -2 * k <= k * (Expected(p) + Expected(q) - ONE) <= 0
  {
    var product := (ONE + p) * (ONE + q);
    MulMono(1, ONE + p, ONE + q);
    var excess := Expected(p) + Expected(q) - ONE;
    var e := ONE * ONE - p * q;
    ExpectedSum(p, q);
    assert excess * product <= ONE * e <= excess * product + 2 * product;
    ScaledExcessCore(k, product, excess, e);
    if e == 0 {
      MulCancel(excess, 0, product);
      MulCancel(-2, excess, product);
      MulMono(excess, 0, k);
      MulMono(-2, excess, k);
    }
  }

  lemma {:induction false} ScaledExcessCore(k: int, product: int, excess: int, e: int)
    requires 0 <= k && 0 < product
    requires excess * product <= ONE * e <= excess * product + 2 * product
    requires 2 * k * Abs(e) <= product
    ensures -ONE - 4 * k <= 2 * (k * excess) <= ONE
  {
    MulMono(excess * product, ONE * e, 2 * k);
    MulMono(ONE * e, excess * product + 2 * product, 2 * k);
    var size: int := Abs(e);
    MulMono(e, size, 2 * k);
    MulMono(-size, e, 2 * k);
    assert ONE * e * (2 * k) == ONE * (e * (2 * k));
    assert -size * (2 * k) == -(2 * k * size);
    assert excess * product * (2 * k) == 2 * (k * excess) * product;
    MulCancel(2 * (k * excess), ONE, product);
    assert (excess * product + 2 * product) * (2 * k) == (2 * (k * excess) + 4 * k) * product;
    MulCancel(-ONE, 2 * (k * excess) + 4 * k, product);
  }

  /** Winner's gain and looser's loss differ by at most one, whatever the two truncations
      and the two roundings do; with exactly reciprocal powers only upwards. */
  lemma {:induction false} GainMatchesLoss(k: int, p: nat, q: nat)
    requires 0 <= k < ONE / 4 && CloseToReciprocal(k, p, q)
    ensures -1 <= Gain(k, p) - Loss(k, q) <= 1
    ensures p * q == ONE * ONE ==> 0 <= Gain(k, p) - Loss(k, q)
  {
    ScaledExcess(k, p, q);
    var x, y := k * (ONE - Expected(p)), k * Expected(q);
    assert x - y == -(k * (Expected(p) + Expected(q) - ONE));
    RoundedDifference(x, y);
  }

  lemma {:induction false} RoundedDifference(x: int, y: int)
    requires -ONE <= 2 * (x - y) < 2 * ONE
    ensures -1 <= HalfUp(x) - HalfDown(y) <= 1
    ensures x >= y ==> 0 <= HalfUp(x) - HalfDown(y)
  {
  }

  /** A game in which both new scores fit nearly conserves their sum; where only one of them fits
      the sum is not conserved. */
  lemma {:induction false} NearConservation(elo: EloRank, pow: Pow, winner: U32, looser: U32)
    requires 0 <= elo.k < ONE / 4
    requires PowersExist(pow, winner, looser)
    ensures elo.Calculate(pow, winner, looser).Some?
    ensures
      var p, q := pow(Exponent(winner, looser)).value, pow(Exponent(looser, winner)).value;
      var r := elo.Calculate(pow, winner, looser).value;
      var drift := r.0 + r.1 - (winner + looser);
      && (WinnerFits(elo.k, winner, p) && LooserFits(elo.k, looser, q) && CloseToReciprocal(elo.k, p, q) ==>
            -1 <= drift <= 1 && (Reciprocal(p, q) ==> 0 <= drift))
      && (-1 <= drift <= 1 ==> (WinnerFits(elo.k, winner, p) <==> LooserFits(elo.k, looser, q)))
  {
    var p, q := pow(Exponent(winner, looser)).value, pow(Exponent(looser, winner)).value;
    CalculateIs(elo, pow, winner, looser);
    if elo.k <= looser {
      SafeLooserFits(elo.k, looser, q);
    }
    if CloseToReciprocal(elo.k, p, q) {
      GainMatchesLoss(elo.k, p, q);
    }
  }

  // ----- Monotonicity -----

  /** A larger raw exponent never gives a smaller result. */
  ghost predicate MonotonePow(pow: Pow) {
    forall x, y :: x <= y && pow(x).Some? && pow(y).Some? ==> pow(x).value <= pow(y).value
  }

  /** The exponent is the truncated quotient of the score difference by 400. */
  lemma {:induction false} ExponentIs(scoreA: U32, scoreB: U32)
    ensures Exponent(scoreA, scoreB) == TruncDiv((scoreB - scoreA) * ONE, 400)
    ensures Exponent(scoreA, scoreB) == -Exponent(scoreB, scoreA)
  {
    var d := scoreB - scoreA;
    WrapId(d * ONE);
    WrapId(-d * ONE);
    ScaledQuotient(d * ONE);
    ScaledQuotient(-d * ONE);
    WrapId(TruncDiv(d * ONE, 400));
    WrapId(TruncDiv(-d * ONE, 400));
  }

  lemma {:induction false} ScaledQuotient(a: int)
    ensures TruncDiv(a * ONE, FixedFrom(400)) == TruncDiv(a, 400)
  {
  }

  lemma {:induction false} ExponentMonotone(scoreA: U32, scoreB: U32, scoreC: U32)
    requires scoreB <= scoreC
    ensures Exponent(scoreA, scoreB) <= Exponent(scoreA, scoreC)
  {
    ExponentIs(scoreA, scoreB);
    ExponentIs(scoreA, scoreC);
  }

  lemma {:induction false} GainMonotone(k: int, p: nat, q: nat)
    requires 0 <= k && p <= q
    ensures Gain(k, p) <= Gain(k, q)
  {
    ExpectedMonotone(p, q);
    MulMono(ONE - Expected(p), ONE - Expected(q), k);
  }

  lemma {:induction false} LossMonotone(k: int, p: nat, q: nat)
    requires 0 <= k && p <= q
    ensures Loss(k, q) <= Loss(k, p)
  {
    ExpectedMonotone(p, q);
    MulMono(Expected(q), Expected(p), k);
  }

  lemma {:induction false} RoundingMonotone(x: int, y: int)
    requires x <= y
    ensures HalfUp(x) <= HalfUp(y) && HalfDown(x) <= HalfDown(y)
  {
  }

  lemma {:induction false} ScaledMonotone(k: int, p: nat, q: nat)
    requires 0 <= k && p <= q
    ensures k * (ONE - Expected(p)) <= k * (ONE - Expected(q))
    ensures k * Expected(q) <= k * Expected(p)
    ensures 2 * k * Expected(q) <= 2 * k * Expected(p)
  {
    ExpectedMonotone(p, q);
    MulMono(ONE - Expected(p), ONE - Expected(q), k);
    MulMono(Expected(q), Expected(p), k);
    MulMono(Expected(q), Expected(p), 2 * k);
  }

  lemma {:induction false} WinnerAfterMonotone(k: int, winner: U32, p: PowRaw, q: PowRaw)
    requires ValidK(k) && p <= q
    ensures WinnerAfter(k, winner, p) <= WinnerAfter(k, winner, q) <==>
              (WinnerFits(k, winner, p) ==> WinnerFits(k, winner, q))
  {
    ScaledMonotone(k, p, q);
    var x, y := k * (ONE - Expected(p)), k * (ONE - Expected(q));
    RoundingMonotone(x, y);
    WinnerIs(k, winner, p);
    WinnerIs(k, winner, q);
    assert Gain(k, p) == HalfUp(x) && Gain(k, q) == HalfUp(y);
    if WinnerFits(k, winner, q) {
      assert WinnerFits(k, winner, p);
    }
  }

  lemma {:induction false} LooserAfterMonotone(k: int, looser: U32, p: PowRaw, q: PowRaw)
    requires ValidK(k) && p <= q
    ensures LooserAfter(k, looser, p) <= LooserAfter(k, looser, q) <==>
              (LooserFits(k, looser, q) ==> LooserFits(k, looser, p))
  {
    ScaledMonotone(k, p, q);
    RoundingMonotone(k * Expected(q), k * Expected(p));
    LooserIs(k, looser, p);
    LooserIs(k, looser, q);
    if LooserFits(k, looser, p) {
      assert LooserFits(k, looser, q);
    }
  }

  /** Beating a higher-rated opponent never gives less than beating a lower-rated one, exactly
      unless it is only the larger gain that passes the end of the `u32` range. */
  lemma {:induction false} WinnerMonotone(elo: EloRank, pow: Pow, winner: U32, low: U32, high: U32)
    requires ValidK(elo.k) && low <= high
    requires PowersExist(pow, winner, low) && PowersExist(pow, winner, high)
    ensures elo.Calculate(pow, winner, low).Some? && elo.Calculate(pow, winner, high).Some?
    ensures
      var p, q := pow(Exponent(winner, low)).value, pow(Exponent(winner, high)).value;
      MonotonePow(pow) ==>
        (elo.Calculate(pow, winner, low).value.0 <= elo.Calculate(pow, winner, high).value.0 <==>
          (WinnerFits(elo.k, winner, p) ==> WinnerFits(elo.k, winner, q)))
  {
    ExponentMonotone(winner, low, high);
    CalculateIs(elo, pow, winner, low);
    CalculateIs(elo, pow, winner, high);
    var p, q := pow(Exponent(winner, low)).value, pow(Exponent(winner, high)).value;
    if p <= q {
      WinnerAfterMonotone(elo.k, winner, p, q);
    }
  }

  /** Losing to a higher-rated opponent never costs more than losing to a lower-rated one, exactly
      unless it is only the larger loss that falls below the `u32` range. */
  lemma {:induction false} LooserMonotone(elo: EloRank, pow: Pow, looser: U32, low: U32, high: U32)
    requires ValidK(elo.k) && low <= high
    requires PowersExist(pow, low, looser) && PowersExist(pow, high, looser)
    ensures elo.Calculate(pow, low, looser).Some? && elo.Calculate(pow, high, looser).Some?
    ensures
      var p, q := pow(Exponent(looser, low)).value, pow(Exponent(looser, high)).value;
      MonotonePow(pow) ==>
        (elo.Calculate(pow, low, looser).value.1 <= elo.Calculate(pow, high, looser).value.1 <==>
          (LooserFits(elo.k, looser, q) ==> LooserFits(elo.k, looser, p)))
  {
    ExponentMonotone(looser, low, high);
    CalculateIs(elo, pow, low, looser);
    CalculateIs(elo, pow, high, looser);
    var p, q := pow(Exponent(looser, low)).value, pow(Exponent(looser, high)).value;
    if p <= q {
      LooserAfterMonotone(elo.k, looser, p, q);
    }
  }

  // ----- Known ratings -----

  /** Gain and loss at the ends of the two intervals below. */
  lemma {:induction false} IntervalEnds()
    ensures Gain(32, 3 * ONE) == Gain(32, 13 * ONE / 4) == 24
    ensures Loss(32, 3 * ONE) == Loss(32, 13 * ONE / 4) == 8
    ensures Gain(32, 5 * ONE / 16) == Gain(32, 11 * ONE / 32) == 8
    ensures Loss(32, 5 * ONE / 16) == Loss(32, 11 * ONE / 32) == 24
  {
    DivUnique(ONE * ONE, ONE + 3 * ONE, 536870912);
    DivUnique(ONE * ONE, ONE + 13 * ONE / 4, 505290270);
    DivUnique(ONE * ONE, ONE + 5 * ONE / 16, 1636178017);
    DivUnique(ONE * ONE, ONE + 11 * ONE / 32, 1598127365);
  }

  lemma {:induction false} GainBetween(p: nat, low: nat, high: nat)
    requires low <= p <= high
    ensures Gain(32, low) <= Gain(32, p) <= Gain(32, high)
    ensures Loss(32, high) <= Loss(32, p) <= Loss(32, low)
  {
    GainMonotone(32, low, p);
    GainMonotone(32, p, high);
    LossMonotone(32, low, p);
    LossMonotone(32, p, high);
  }

  lemma {:induction false} KnownExponent()
    ensures Exponent(1200, 1400) == HALF && Exponent(1400, 1200) == -HALF
  {
    ExponentIs(1200, 1400);
    DivUnique(200 * ONE, 400, HALF);
  }

  /** With the square root of 10 known to lie between 3 and 3 1/4, and its reciprocal between 5/16
      and 11/32, a player of 1200 who beats one of 1400 leaves both with 1224 and 1376; the other
      way round they end with 1408 and 1192. */
  lemma {:induction false} KnownRatings(elo: EloRank, pow: Pow, p: PowRaw, q: PowRaw)
    requires elo.k == 32 && pow(HALF) == Some(p) && pow(-HALF) == Some(q)
    requires 3 * ONE <= p <= 13 * ONE / 4 && 5 * ONE / 16 <= q <= 11 * ONE / 32
    ensures elo.Calculate(pow, 1200, 1400) == Some((1224, 1376))
    ensures elo.Calculate(pow, 1400, 1200) == Some((1408, 1192))
  {
    KnownExponent();
    IntervalEnds();
    GainBetween(p, 3 * ONE, 13 * ONE / 4);
    GainBetween(q, 5 * ONE / 16, 11 * ONE / 32);
    SafeLooserFits(32, 1200, p);
    SafeLooserFits(32, 1400, q);
    CalculateIs(elo, pow, 1200, 1400);
    CalculateIs(elo, pow, 1400, 1200);
  }
}
