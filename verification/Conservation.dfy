/** The sum of all scores over a whole run is nearly conserved. */
module Conservation {
  import opened Prelude
  import opened Chain
  import opened Effects
  import opened MapSums
  import opened Runs
  import opened ScoreRanges
  import AuditRep
  import Closing
  import Dispatcher
  import EloLaws
  import EloProofs
  import ExoSys

  function Points(data: AuditorData): int {
    if data.score.Some? then data.score.value else 0
  }

  /** The sum of all scores. */
  ghost function TotalScore(s: State): int {
    Sum(s.auditors, Points)
  }

  // ----- The exact ledger -----

  /** Points that step n grants, by completing an approval. */
  function GrantedAt(r: Run, n: nat): nat
    requires n < |r.xs|
  {
    if r.Succeeds(n) && r.xs[n].call.ApproveAuditor? && r.At(n + 1).ScoreOf(r.xs[n].call.toApprove).Some?
    then r.cfg.initialAuditorScore
    else 0
  }

  /** Points that step n removes, by a cancellation. */
  function RemovedAt(r: Run, n: nat): nat
    requires n < |r.xs|
  {
    if r.Succeeds(n) && r.xs[n].call.CancelAccount? && r.xs[n].origin.Signed?
       && r.At(n).ScoreOf(r.xs[n].origin.who).Some?
    then r.At(n).ScoreOf(r.xs[n].origin.who).value
    else 0
  }

  /** By how much the game of step n changes the sum of the scores of its players, of whom there
      is only one if an account plays against itself. */
  function DriftAt(r: Run, n: nat): int
    requires n < |r.xs|
  {
    match r.Decided(n)
    case None => 0
    case Some((w, l)) => Moved(r, n, w) + (if w == l then 0 else Moved(r, n, l))
  }

  function Moved(r: Run, n: nat, a: AccountId): int
    requires n < |r.xs|
  {
    PointsOf(r.At(n + 1), a) - PointsOf(r.At(n), a)
  }

  /** What a run booked: points granted by completed approvals, removed by cancellations, and
      added or lost by games; and the number of decided games between two accounts, and of an
      account against itself. */
  datatype Books = Books(granted: nat, removed: nat, drift: int, games: nat, selfGames: nat)

  function BooksOf(r: Run, n: nat): Books
    requires n <= |r.xs|
  {
    if n == 0 then
      Books(0, 0, 0, 0, 0)
    else
      var books, decided := BooksOf(r, n - 1), r.Decided(n - 1);
      Books(books.granted + GrantedAt(r, n - 1),
            books.removed + RemovedAt(r, n - 1),
            books.drift + DriftAt(r, n - 1),
            books.games + (if decided.Some? && decided.value.0 != decided.value.1 then 1 else 0),
            books.selfGames + (if decided.Some? && decided.value.0 == decided.value.1 then 1 else 0))
  }

  lemma {:induction false} SumTwoUpdates(m: map<AccountId, AuditorData>, t: map<AccountId, AuditorData>,
                                         a: AccountId, b: AccountId)
    requires a in m && b in m && a != b && t.Keys == m.Keys
    requires forall c :: c in m && c != a && c != b ==> t[c] == m[c]
    ensures Sum(t, Points) == Sum(m, Points) + Points(t[a]) + Points(t[b]) - Points(m[a]) - Points(m[b])
  {
    var mid: map<AccountId, AuditorData> := m[a := t[a]];
    SumUpdate(m, a, t[a], Points);
    SumUpdate(mid, b, t[b], Points);
    assert t == mid[b := t[b]];
  }

  /** A game changes the sum of all scores by what it changes those of its players. */
  lemma {:induction false} GameTotal(cfg: Config, s: State, player0: AccountId, player1: AccountId, winner: Winner)
    ensures AuditRep.ApplyResult(cfg, s, player0, player1, winner).Ok? ==>
      var t := AuditRep.ApplyResult(cfg, s, player0, player1, winner).value;
      && TotalScore(t) - TotalScore(s)
           == PointsOf(t, player0) - PointsOf(s, player0)
              + (if player0 == player1 then 0 else PointsOf(t, player1) - PointsOf(s, player1))
      && (winner.Draw? ==> t.auditors == s.auditors)
  {
    if AuditRep.ApplyResult(cfg, s, player0, player1, winner).Ok? {
      var t := AuditRep.ApplyResult(cfg, s, player0, player1, winner).value;
      if player0 == player1 {
        var updated: map<AccountId, AuditorData> := s.auditors[player0 := t.auditors[player0]];
        SumUpdate(s.auditors, player0, t.auditors[player0], Points);
        assert t.auditors == updated;
      } else {
        Closing.PlayExactly(cfg, s, player0, player1, winner);
        SumTwoUpdates(s.auditors, t.auditors, player0, player1);
      }
    }
  }

  lemma {:induction false} SignedTotal(r: Run, n: nat)
    requires n < |r.xs| && Dispatcher.NeedsSignature(r.xs[n].call) && r.Succeeds(n)
    ensures TotalScore(r.At(n + 1)) == TotalScore(r.At(n)) + GrantedAt(r, n) - RemovedAt(r, n)
  {
    assert r.Step(n);
    var s, t, x := r.At(n), r.At(n + 1), r.xs[n];
    assert Dispatcher.ApplySigned(r.cfg, s, x.origin.who, x.call) == Ok(t);
    match x.call
    case SignUp(_) => SumUpdate(s.auditors, x.origin.who, t.auditors[x.origin.who], Points);
    case UpdateProfile(_) => SumUpdate(s.auditors, x.origin.who, t.auditors[x.origin.who], Points);
    case ApproveAuditor(to) => SumUpdate(s.auditors, to, t.auditors[to], Points);
    case CancelAccount => SumRemove(s.auditors, x.origin.who, Points);
    case _ =>
  }

  lemma {:induction false} SubmittedTotal(r: Run, n: nat)
    requires n < |r.xs| && r.Succeeds(n) && r.xs[n].call.SubmitGame?
    ensures TotalScore(r.At(n + 1)) == TotalScore(r.At(n)) + DriftAt(r, n)
  {
    assert r.Step(n);
    GameTotal(r.cfg, r.At(n), r.xs[n].call.player0, r.xs[n].call.player1, r.xs[n].call.winner);
  }

  lemma {:induction false} CloseTotal(cfg: Config, s: State, hash: Hash, reportId: ReportId,
                                      challengeId: ChallengeId, verdict: Verdict)
    ensures ExoSys.CloseChallenge(cfg, s, hash, reportId, challengeId, verdict).Ok? ==>
      var t := ExoSys.CloseChallenge(cfg, s, hash, reportId, challengeId, verdict).value;
      var challenger := s.exo.ChallengesOf(hash, reportId)[challengeId].auditor;
      var author := s.exo.ReportsOf(hash)[reportId].auditor;
      && TotalScore(t) - TotalScore(s)
           == PointsOf(t, challenger) - PointsOf(s, challenger)
              + (if challenger == author then 0 else PointsOf(t, author) - PointsOf(s, author))
      && (verdict.Remove? ==> t.auditors == s.auditors)
  {
    if ExoSys.CloseChallenge(cfg, s, hash, reportId, challengeId, verdict).Ok? {
      var written := s.(exo := ExoSys.SetChallengeState(s.exo, hash, reportId, challengeId, verdict.State()));
      var challenger := s.exo.ChallengesOf(hash, reportId)[challengeId].auditor;
      GameTotal(cfg, written, challenger, s.exo.ReportsOf(hash)[reportId].auditor, verdict.Game());
    }
  }

  lemma {:induction false} ClosedTotal(r: Run, n: nat)
    requires n < |r.xs| && r.Closes(n)
    ensures TotalScore(r.At(n + 1)) == TotalScore(r.At(n)) + DriftAt(r, n)
  {
    assert r.Step(n);
    var c := r.xs[n].call;
    CloseTotal(r.cfg, r.At(n), c.hash, c.reportId, c.challengeId, c.verdict);
  }

  lemma {:induction false} FailedTotal(r: Run, n: nat)
    requires n < |r.xs| && !r.Succeeds(n)
    ensures r.At(n + 1) == r.At(n)
  {
    assert r.Step(n);
  }

  lemma {:induction false} TotalStep(r: Run, n: nat)
    requires n < |r.xs|
    ensures TotalScore(r.At(n + 1)) == TotalScore(r.At(n)) + DriftAt(r, n) + GrantedAt(r, n) - RemovedAt(r, n)
  {
    if !r.Succeeds(n) {
      FailedTotal(r, n);
    } else {
      match r.xs[n].call
      case SubmitGame(_, _, _) =>
        SubmittedTotal(r, n);
      case CloseChallenge(_, _, _, _) =>
        ClosesIff(r, n);
        ClosedTotal(r, n);
      case _ =>
        SignedTotal(r, n);
    }
  }

  /** In every run the sum of all scores is exactly the genesis sum, plus the initial score for
      each completed approval, minus the scores of those who cancelled, plus the drift. */
  lemma {:induction false} ScoreLedger(r: Run, n: nat)
    requires n <= |r.xs|
    ensures
      var books := BooksOf(r, n);
      TotalScore(r.At(n)) == TotalScore(r.At(0)) + books.granted - books.removed + books.drift
  {
    if n > 0 {
      ScoreLedger(r, n - 1);
      TotalStep(r, n - 1);
    }
  }

  // ----- The size of the drift -----

  /** Both new scores fit, and the two powers are nearly reciprocal. */
  predicate FairGame(cfg: Config, s: State, winner: AccountId, looser: AccountId) {
    var (p, q) := (PowerOf(cfg, s, winner, looser), PowerOf(cfg, s, looser, winner));
    p.Some? && q.Some? ==>
      && EloProofs.WinnerFits(STEP, PointsOf(s, winner), p.value)
      && EloProofs.LooserFits(STEP, PointsOf(s, looser), q.value)
      && EloLaws.CloseToReciprocal(STEP, p.value, q.value)
  }

  /** The two powers are exactly reciprocal. */
  predicate ExactGame(cfg: Config, s: State, winner: AccountId, looser: AccountId) {
    var (p, q) := (PowerOf(cfg, s, winner, looser), PowerOf(cfg, s, looser, winner));
    p.Some? && q.Some? ==> EloLaws.Reciprocal(p.value, q.value)
  }

  /** Step n is not a decided game, or a fair one. */
  predicate FairAt(r: Run, n: nat)
    requires n < |r.xs|
  {
    r.Decided(n).Some? ==> FairGame(r.cfg, r.At(n), r.Decided(n).value.0, r.Decided(n).value.1)
  }

  predicate ExactAt(r: Run, n: nat)
    requires n < |r.xs|
  {
    r.Decided(n).Some? ==> ExactGame(r.cfg, r.At(n), r.Decided(n).value.0, r.Decided(n).value.1)
  }

  lemma {:induction false} FairGameDrift(cfg: Config, s: State, winner: AccountId, looser: AccountId)
    requires FairGame(cfg, s, winner, looser)
    ensures NewScores(cfg, s, winner, looser).Some? ==>
      var (newW, newL) := NewScores(cfg, s, winner, looser).value;
      var drift := newW + newL - PointsOf(s, winner) - PointsOf(s, looser);
      -1 <= drift <= 1 && (ExactGame(cfg, s, winner, looser) ==> 0 <= drift)
  {
    if NewScores(cfg, s, winner, looser).Some? {
      EloProofs.CalculateIs(AuditRep.ELO, cfg.pow, PointsOf(s, winner), PointsOf(s, looser));
      EloLaws.NearConservation(AuditRep.ELO, cfg.pow, PointsOf(s, winner), PointsOf(s, looser));
    }
  }

  lemma {:induction false} MovedByGame(r: Run, n: nat, a: AccountId)
    requires n < |r.xs|
    ensures
      match EffectOn(r, n, a)
      case Won(b) => NewScores(r.cfg, r.At(n), a, b).Some?
                     && Moved(r, n, a) == NewScores(r.cfg, r.At(n), a, b).value.0 - PointsOf(r.At(n), a)
      case Lost(b) => NewScores(r.cfg, r.At(n), b, a).Some?
                      && Moved(r, n, a) == NewScores(r.cfg, r.At(n), b, a).value.1 - PointsOf(r.At(n), a)
      case _ => true
  {
    StandingStep(r, n, a);
  }

  lemma {:induction false} DecidedDrift(r: Run, n: nat, w: AccountId, l: AccountId)
    requires n < |r.xs| && r.Decided(n) == Some((w, l)) && w != l
    ensures NewScores(r.cfg, r.At(n), w, l).Some?
    ensures
      var (newW, newL) := NewScores(r.cfg, r.At(n), w, l).value;
      DriftAt(r, n) == newW + newL - PointsOf(r.At(n), w) - PointsOf(r.At(n), l)
  {
    MovedByGame(r, n, w);
    MovedByGame(r, n, l);
  }

  /** A fair game between two accounts changes the sum of their scores by at most one point. */
  lemma {:induction false} PairDrift(r: Run, n: nat, w: AccountId, l: AccountId)
    requires n < |r.xs| && r.Decided(n) == Some((w, l)) && w != l && FairAt(r, n)
    ensures -1 <= DriftAt(r, n) <= 1
    ensures ExactAt(r, n) ==> 0 <= DriftAt(r, n)
  {
    DecidedDrift(r, n, w, l);
    FairGameDrift(r.cfg, r.At(n), w, l);
  }

  /** A fair game of an account against itself is worth what any game is worth to one side. */
  lemma {:induction false} SelfDrift(r: Run, n: nat, a: AccountId)
    requires n < |r.xs| && r.Decided(n) == Some((a, a)) && FairAt(r, n)
    ensures -STEP <= DriftAt(r, n) <= STEP
  {
    StandingStep(r, n, a);
    DirectionInRun(r, n, a);
  }

  lemma {:induction false} DriftBounds(r: Run, n: nat)
    requires n <= |r.xs|
    requires forall m: nat :: m < n ==> FairAt(r, m)
    ensures Abs(BooksOf(r, n).drift) <= BooksOf(r, n).games + STEP * BooksOf(r, n).selfGames
    ensures (forall m: nat :: m < n ==> ExactAt(r, m)) ==> -STEP * BooksOf(r, n).selfGames <= BooksOf(r, n).drift
  {
    if n > 0 {
      DriftBounds(r, n - 1);
      match r.Decided(n - 1)
      case None =>
      case Some((w, l)) =>
        if w == l {
          SelfDrift(r, n - 1, w);
        } else {
          PairDrift(r, n - 1, w, l);
        }
    }
  }

  /** In a run of fair games the sum of all scores is the genesis sum, plus the initial score for
      each completed approval, minus the scores of those who cancelled, up to one point per game
      between two accounts and 32 per game of an account against itself; with exactly reciprocal
      powers it never falls short but for the latter. */
  lemma {:induction false} ScoreConservation(r: Run, n: nat)
    requires n <= |r.xs|
    requires forall m: nat :: m < n ==> FairAt(r, m)
    ensures
      var books := BooksOf(r, n);
      var expected := TotalScore(r.At(0)) + books.granted - books.removed;
      && Abs(TotalScore(r.At(n)) - expected) <= books.games + STEP * books.selfGames
      && ((forall m: nat :: m < n ==> ExactAt(r, m)) ==>
            expected - STEP * books.selfGames <= TotalScore(r.At(n)))
  {
    ScoreLedger(r, n);
    DriftBounds(r, n);
  }

  /** Where ExoSys starts empty and root submits no decided game of an account against itself,
      there is none. */
  lemma {:induction false} NoSelfGames(r: Run, n: nat)
    requires n <= |r.xs| && r.StartsEmpty()
    requires forall m: nat :: m < n && r.Succeeds(m) && r.xs[m].call.SubmitGame? ==>
               r.xs[m].call.winner.Draw? || r.xs[m].call.player0 != r.xs[m].call.player1
    ensures BooksOf(r, n).selfGames == 0
  {
    if n > 0 {
      NoSelfGames(r, n - 1);
      var decided := r.Decided(n - 1);
      if decided.Some? && decided.value.0 == decided.value.1 {
        SelfPlayIsSubmitted(r, n - 1, decided.value.0);
        assert false;
      }
    }
  }
}
