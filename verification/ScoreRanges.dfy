/** The score of one auditor over a whole run: exactly when its games move it the right way, and
    how far they can move it.
  */
module ScoreRanges {
  import opened Prelude
  import opened Chain
  import opened Effects
  import opened Runs
  import AuditRep
  import Closing
  import Dispatcher
  import Elo
  import EloLaws
  import EloProofs

  /** The coefficient of the Elo step: what one game can be worth. */
  const STEP: int := 32

  function PointsOf(s: State, a: AccountId): Score {
    if s.ScoreOf(a).Some? then s.ScoreOf(a).value else 0
  }

  /** The power that the expectation of a against b is computed from. */
  function PowerOf(cfg: Config, s: State, a: AccountId, b: AccountId): Option<Elo.PowRaw> {
    cfg.pow(Elo.Exponent(PointsOf(s, a), PointsOf(s, b)))
  }

  /** A game between an account and itself can only be submitted by root: challenges never lead to one. */
  lemma {:induction false} SelfPlayIsSubmitted(r: Run, n: nat, a: AccountId)
    requires n < |r.xs| && r.StartsEmpty()
    requires r.Decided(n) == Some((a, a))
    ensures r.xs[n].origin == Root && r.xs[n].call.SubmitGame?
  {
    assert r.Step(n);
    if r.Closes(n) {
      Closing.DistinctPlayers(r, n);
    }
  }

  // ----- One game -----

  /** The game of step n leaves a with a score that is still a `u32`: the winner's rounded gain
      stays inside the range, the looser's unrounded score above minus one half. */
  predicate GameFits(r: Run, n: nat, a: AccountId)
    requires n < |r.xs|
  {
    var s := r.At(n);
    match EffectOn(r, n, a)
    case Won(b) =>
      var p := PowerOf(r.cfg, s, a, b);
      p.Some? && EloProofs.WinnerFits(STEP, PointsOf(s, a), p.value)
    case Lost(b) =>
      var p := PowerOf(r.cfg, s, a, b);
      p.Some? && EloProofs.LooserFits(STEP, PointsOf(s, a), p.value)
    case _ => true
  }

  /** Who wins does not drop, who loses does not rise. */
  predicate RightWay(r: Run, n: nat, a: AccountId)
    requires n < |r.xs|
  {
    var before, after := PointsOf(r.At(n), a), PointsOf(r.At(n + 1), a);
    match EffectOn(r, n, a)
    case Won(_) => before <= after
    case Lost(_) => after <= before
    case _ => true
  }

  /** A decided game moves an auditor the right way iff it fits, and iff it moves the score by at
      most 32 points. Otherwise the winner is left with at most 32 points, or the looser with at
      least 2^32 - 32. */
  lemma {:induction false} DirectionInRun(r: Run, n: nat, a: AccountId)
    requires n < |r.xs| && (EffectOn(r, n, a).Won? || EffectOn(r, n, a).Lost?)
    ensures r.At(n).ScoreOf(a).Some? && r.At(n + 1).ScoreOf(a).Some?
    ensures r.At(n).ScoreOf(EffectOn(r, n, a).against).Some?
    ensures
      var before, after := r.At(n).ScoreOf(a).value, r.At(n + 1).ScoreOf(a).value;
      && (RightWay(r, n, a) <==> GameFits(r, n, a))
      && (Abs(after - before) <= STEP <==> GameFits(r, n, a))
      && (!GameFits(r, n, a) ==> if EffectOn(r, n, a).Won? then after <= STEP else U32_COUNT - STEP <= after)
  {
    StandingStep(r, n, a);
    var s, b := r.At(n), EffectOn(r, n, a).against;
    if EffectOn(r, n, a).Won? {
      EloProofs.CalculateIs(AuditRep.ELO, r.cfg.pow, PointsOf(s, a), PointsOf(s, b));
    } else {
      EloProofs.CalculateIs(AuditRep.ELO, r.cfg.pow, PointsOf(s, b), PointsOf(s, a));
    }
  }

  // ----- Many games -----

  /** Sign-up, cancellation and approval start a new score. */
  predicate Restarts(e: Effect) {
    e.Joined? || e.Left? || e.Approved?
  }

  /** The step from which on the present score of an account has only changed by games. */
  function Since(r: Run, n: nat, a: AccountId): (start: nat)
    requires n <= |r.xs|
    ensures start <= n
  {
    if n == 0 then 0
    else if Restarts(EffectOn(r, n - 1, a)) then n
    else Since(r, n - 1, a)
  }

  /** All games that made the present score of an account fitted. */
  ghost predicate AllFitted(r: Run, n: nat, a: AccountId)
    requires n <= |r.xs|
  {
    forall m: nat :: Since(r, n, a) <= m < n ==> GameFits(r, m, a)
  }

  ghost predicate AllRightWay(r: Run, n: nat, a: AccountId)
    requires n <= |r.xs|
  {
    forall m: nat :: Since(r, n, a) <= m < n ==> RightWay(r, m, a)
  }

  /** All these games fitted iff every single one moved the account the right way. */
  lemma {:induction false} AllFittedIff(r: Run, n: nat, a: AccountId)
    requires n <= |r.xs|
    ensures AllFitted(r, n, a) <==> AllRightWay(r, n, a)
  {
    forall m: nat | m < n
      ensures GameFits(r, m, a) <==> RightWay(r, m, a)
    {
      if EffectOn(r, m, a).Won? || EffectOn(r, m, a).Lost? {
        DirectionInRun(r, m, a);
      }
    }
  }

  /** Games won, and lost, since that step. A game of an account against itself counts once: as
      won or lost for player 1. */
  function Wins(r: Run, n: nat, a: AccountId): nat
    requires n <= |r.xs|
  {
    if n == 0 || Restarts(EffectOn(r, n - 1, a)) then 0
    else Wins(r, n - 1, a) + (if EffectOn(r, n - 1, a).Won? then 1 else 0)
  }

  function Losses(r: Run, n: nat, a: AccountId): nat
    requires n <= |r.xs|
  {
    if n == 0 || Restarts(EffectOn(r, n - 1, a)) then 0
    else Losses(r, n - 1, a) + (if EffectOn(r, n - 1, a).Lost? then 1 else 0)
  }

  /** The score an auditor started with: the genesis one for those scored at genesis who never
      cancelled, otherwise the initial one. */
  ghost function StartScore(r: Run, n: nat, a: AccountId): Score
    requires n <= |r.xs|
  {
    if r.Inherited(n, a) && r.At(0).ScoreOf(a).Some? then r.At(0).ScoreOf(a).value
    else r.cfg.initialAuditorScore
  }

  lemma {:induction false} InheritedScore(r: Run, n: nat, a: AccountId)
    requires n <= |r.xs| && r.Inherited(n, a) && r.At(0).ScoreOf(a).Some?
    ensures r.At(n).ScoreOf(a).Some?
  {
    if n > 0 {
      StandingStep(r, n - 1, a);
      InheritedScore(r, n - 1, a);
    }
  }

  /** What an auditor started with, has played since, and has now. */
  datatype Tally = Tally(start: Score, wins: nat, losses: nat, score: Score) {
    /** The bounds of this tally are inside the `u32` range. */
    predicate Safe() {
      STEP * losses <= start && start + STEP * wins < U32_COUNT
    }

    predicate InBounds() {
      start - STEP * losses <= score <= start + STEP * wins
    }
  }

  ghost function TallyOf(r: Run, n: nat, a: AccountId): Tally
    requires n <= |r.xs| && r.At(n).ScoreOf(a).Some?
  {
    Tally(StartScore(r, n, a), Wins(r, n, a), Losses(r, n, a), r.At(n).ScoreOf(a).value)
  }

  /** A step whose game fits continues the tally by at most that one game. */
  ghost predicate Continues(before: Tally, after: Tally) {
    && after.start == before.start
    && ((after.wins == before.wins && after.losses == before.losses && after.score == before.score)
        || (after.wins == before.wins + 1 && after.losses == before.losses
            && before.score <= after.score <= before.score + STEP)
        || (after.wins == before.wins && after.losses == before.losses + 1
            && before.score - STEP <= after.score <= before.score))
  }

  lemma {:induction false} TallyStep(r: Run, n: nat, a: AccountId)
    requires n < |r.xs| && r.At(n + 1).ScoreOf(a).Some? && GameFits(r, n, a)
    ensures if Restarts(EffectOn(r, n, a))
            then TallyOf(r, n + 1, a) == Tally(r.cfg.initialAuditorScore, 0, 0, r.cfg.initialAuditorScore)
            else r.At(n).ScoreOf(a).Some? && Continues(TallyOf(r, n, a), TallyOf(r, n + 1, a))
  {
    StandingStep(r, n, a);
    match EffectOn(r, n, a)
    case Approved(_) =>
      if r.Inherited(n, a) && r.At(0).ScoreOf(a).Some? {
        InheritedScore(r, n, a);
      }
    case Won(_) => DirectionInRun(r, n, a);
    case Lost(_) => DirectionInRun(r, n, a);
    case _ =>
  }

  /** In every run, after any number of games: as long as every game since the score was given
      fitted, it is within 32 points per loss and per win of where it started. */
  lemma {:induction false} ScoreRange(r: Run, n: nat, a: AccountId)
    requires n <= |r.xs| && r.At(n).ScoreOf(a).Some?
    ensures AllFitted(r, n, a) ==> TallyOf(r, n, a).InBounds()
  {
    if n > 0 && AllFitted(r, n, a) {
      TallyStep(r, n - 1, a);
      if !Restarts(EffectOn(r, n - 1, a)) {
        ScoreRange(r, n - 1, a);
      }
    }
  }

  lemma {:induction false} EqualGame(cfg: Config, s: State, winner: AccountId, looser: AccountId, score: Score)
    requires winner != looser && cfg.pow(0) == Some(Elo.ONE)
    requires s.ScoreOf(winner) == s.ScoreOf(looser) == Some(score) && score < 16
    ensures
      var x := Extrinsic(Root, SubmitGame(winner, looser, Player0));
      && Dispatcher.Apply(cfg, s, x).Ok?
      && Dispatcher.Dispatch(cfg, s, x).ScoreOf(looser) == Some(score - 16 + U32_COUNT)
  {
    EloLaws.EqualMatch(AuditRep.ELO, cfg.pow, score);
  }

  lemma {:induction false} EqualGameInRun(r: Run, winner: AccountId, looser: AccountId, score: Score)
    requires winner != looser && r.cfg.pow(0) == Some(Elo.ONE)
    requires r.At(0).ScoreOf(winner) == r.At(0).ScoreOf(looser) == Some(score) && score < 16
    requires r.xs == [Extrinsic(Root, SubmitGame(winner, looser, Player0))]
    ensures EffectOn(r, 0, looser) == Lost(winner)
    ensures r.At(1).ScoreOf(looser) == Some(score - 16 + U32_COUNT)
    ensures StartScore(r, 1, looser) == score && Wins(r, 1, looser) == 0
  {
    assert r.Step(0);
    EqualGame(r.cfg, r.At(0), winner, looser, score);
    assert r.Succeeds(0);
    StandingStep(r, 0, looser);
  }

  /** Without the condition the range is left: of two equals with less than 16 points, the looser
      of a game ends near 2^32. */
  lemma {:induction false} RangeLeft(cfg: Config, s: State, winner: AccountId, looser: AccountId, score: Score)
    requires winner != looser && cfg.pow(0) == Some(Elo.ONE)
    requires s.ScoreOf(winner) == s.ScoreOf(looser) == Some(score) && score < 16
    ensures
      var r := Execute(cfg, s, [Extrinsic(Root, SubmitGame(winner, looser, Player0))]);
      && r.At(1).ScoreOf(looser) == Some(score - 16 + U32_COUNT)
      && !TallyOf(r, 1, looser).InBounds() && !AllFitted(r, 1, looser)
  {
    var r := Execute(cfg, s, [Extrinsic(Root, SubmitGame(winner, looser, Player0))]);
    EqualGameInRun(r, winner, looser, score);
    ScoreRange(r, 1, looser);
  }

  // ----- A sufficient count -----

  lemma {:induction false} SafeGameFits(r: Run, n: nat, a: AccountId)
    requires n < |r.xs|
    ensures EffectOn(r, n, a).Won? && PointsOf(r.At(n), a) + STEP < U32_COUNT ==> GameFits(r, n, a)
    ensures EffectOn(r, n, a).Lost? && STEP <= PointsOf(r.At(n), a) ==> GameFits(r, n, a)
  {
    StandingStep(r, n, a);
    var s, e := r.At(n), EffectOn(r, n, a);
    if e.Won? {
      EloProofs.CalculateIs(AuditRep.ELO, r.cfg.pow, PointsOf(s, a), PointsOf(s, e.against));
    } else if e.Lost? && STEP <= PointsOf(s, a) {
      EloProofs.CalculateIs(AuditRep.ELO, r.cfg.pow, PointsOf(s, e.against), PointsOf(s, a));
      EloLaws.SafeLooserFits(STEP, PointsOf(s, a), PowerOf(r.cfg, s, a, e.against).value);
    }
  }

  /** The next game fits if the bounds that count it in are inside the range. */
  lemma {:induction false} SafeTallyFits(r: Run, n: nat, a: AccountId)
    requires n < |r.xs| && r.At(n).ScoreOf(a).Some? && TallyOf(r, n, a).InBounds()
    requires EffectOn(r, n, a).Won? ==> StartScore(r, n, a) + STEP * (Wins(r, n, a) + 1) < U32_COUNT
    requires EffectOn(r, n, a).Lost? ==> STEP * (Losses(r, n, a) + 1) <= StartScore(r, n, a)
    ensures GameFits(r, n, a)
  {
    SafeGameFits(r, n, a);
  }

  /** Where the bounds themselves are inside the `u32` range, all games fitted. */
  lemma {:induction false} SafeScoreRange(r: Run, n: nat, a: AccountId)
    requires n <= |r.xs| && r.At(n).ScoreOf(a).Some?
    ensures TallyOf(r, n, a).Safe() ==> AllFitted(r, n, a) && TallyOf(r, n, a).InBounds()
  {
    if n > 0 && TallyOf(r, n, a).Safe() && !Restarts(EffectOn(r, n - 1, a)) {
      SameStart(r, n - 1, a);
      SafeScoreRange(r, n - 1, a);
      SafeTallyFits(r, n - 1, a);
    }
    ScoreRange(r, n, a);
  }

  lemma {:induction false} SameStart(r: Run, n: nat, a: AccountId)
    requires n < |r.xs| && r.At(n + 1).ScoreOf(a).Some? && !Restarts(EffectOn(r, n, a))
    ensures r.At(n).ScoreOf(a).Some? && StartScore(r, n + 1, a) == StartScore(r, n, a)
  {
    StandingStep(r, n, a);
  }

  /** As long as an auditor starts with at least 32 points per loss, counting the next one, that
      loss takes at most 32 points and the conversion to `u32` does not leave the range. */
  lemma {:induction false} EarlyLossFits(r: Run, n: nat, a: AccountId)
    requires n < |r.xs| && EffectOn(r, n, a).Lost? && r.At(n).ScoreOf(a).Some?
    requires TallyOf(r, n, a).Safe() && STEP * (Losses(r, n, a) + 1) <= StartScore(r, n, a)
    ensures GameFits(r, n, a) && r.At(n + 1).ScoreOf(a).Some?
    ensures r.At(n).ScoreOf(a).value - STEP <= r.At(n + 1).ScoreOf(a).value <= r.At(n).ScoreOf(a).value
  {
    SafeScoreRange(r, n, a);
    SafeTallyFits(r, n, a);
    DirectionInRun(r, n, a);
  }
}
