/** What one step of a run does to the entry of one account in the auditor map. */
module Effects {
  import opened Prelude
  import opened Chain
  import opened Runs
  import AuditRep
  import Dispatcher
  import Elo
  import ExoSys

  datatype Effect =
    | Untouched
    | Joined(profile: Hash)
    | Updated(profile: Hash)
    | Left
    | Approved(approver: AccountId)
    | Won(against: AccountId)
    | Lost(against: AccountId)

  /** The entry of an account. */
  datatype Standing = Absent | Present(score: Option<Score>, profileHash: Hash, approvedBy: ApprovedBy)

  function StandingOf(s: State, a: AccountId): Standing {
    if a in s.auditors
    then Present(s.auditors[a].score, s.auditors[a].profileHash, s.auditors[a].approvedBy)
    else Absent
  }

  /** The effect of a game on account a. Player 1 is written last: of an account that plays
      against itself only the score as player 1 remains. */
  function GameEffect(game: Game, a: AccountId): Effect {
    match game.winner
    case Draw => Untouched
    case Player0 =>
      if a == game.player1 then Lost(game.player0)
      else if a == game.player0 then Won(game.player1)
      else Untouched
    case Player1 =>
      if a == game.player1 then Won(game.player0)
      else if a == game.player0 then Lost(game.player1)
      else Untouched
  }

  /** Which effect step n is to have on account a, read off the call and its outcome. */
  function EffectOn(r: Run, n: nat, a: AccountId): Effect
    requires n < |r.xs|
  {
    if !r.Succeeds(n) then
      Untouched
    else
      match r.xs[n].call
      case SignUp(profile) => if r.xs[n].origin == Signed(a) then Joined(profile) else Untouched
      case UpdateProfile(profile) => if r.xs[n].origin == Signed(a) then Updated(profile) else Untouched
      case CancelAccount => if r.xs[n].origin == Signed(a) then Left else Untouched
      case ApproveAuditor(b) => if b == a && r.xs[n].origin.Signed? then Approved(r.xs[n].origin.who) else Untouched
      case _ =>
        if r.Played(n).Some? then GameEffect(r.Played(n).value, a) else Untouched
  }

  /** The scores a decided game gives to winner and looser. */
  function NewScores(cfg: Config, s: State, winner: AccountId, looser: AccountId): Option<(Score, Score)> {
    if s.ScoreOf(winner).Some? && s.ScoreOf(looser).Some? then
      Elo.EloRank(32).Calculate(cfg.pow, s.ScoreOf(winner).value, s.ScoreOf(looser).value)
    else
      None
  }

  /** The effect e on account a leads from state s to state t. */
  ghost predicate HasEffect(cfg: Config, s: State, t: State, a: AccountId, e: Effect) {
    var before, after := StandingOf(s, a), StandingOf(t, a);
    match e
    case Untouched => after == before
    case Joined(profile) => before == Absent && after == Present(None, profile, [])
    case Updated(profile) => before.Present? && after == before.(profileHash := profile)
    case Left => before != Absent && after == Absent
    case Approved(b) =>
      && b != a
      && AuditRep.HasEnoughRank(s, b, cfg.minimalApproverScore)
      && before.Present? && before.score.None? && |before.approvedBy| < 3 && b !in before.approvedBy
      && after == Present(if |before.approvedBy| == 2 then Some(cfg.initialAuditorScore) else None,
                          before.profileHash, before.approvedBy + [b])
    case Won(b) =>
      && before.Present? && before.score.Some? && NewScores(cfg, s, a, b).Some?
      && after == before.(score := Some(NewScores(cfg, s, a, b).value.0))
    case Lost(b) =>
      && before.Present? && before.score.Some? && NewScores(cfg, s, b, a).Some?
      && after == before.(score := Some(NewScores(cfg, s, b, a).value.1))
  }

  lemma {:induction false} PlayEffect(cfg: Config, s: State, player0: AccountId, player1: AccountId,
                                      winner: Winner, a: AccountId)
    ensures AuditRep.ApplyResult(cfg, s, player0, player1, winner).Ok? ==>
            HasEffect(cfg, s, AuditRep.ApplyResult(cfg, s, player0, player1, winner).value, a,
                      GameEffect(Game(player0, player1, winner), a))
  {
  }

  lemma {:induction false} CloseEffect(cfg: Config, s: State, hash: Hash, reportId: ReportId,
                                       challengeId: ChallengeId, verdict: Verdict, a: AccountId)
    ensures ExoSys.CloseChallenge(cfg, s, hash, reportId, challengeId, verdict).Ok? ==>
      var challenger := s.exo.ChallengesOf(hash, reportId)[challengeId].auditor;
      var author := s.exo.ReportsOf(hash)[reportId].auditor;
      HasEffect(cfg, s, ExoSys.CloseChallenge(cfg, s, hash, reportId, challengeId, verdict).value, a,
                GameEffect(Game(challenger, author, verdict.Game()), a))
  {
    if ExoSys.CloseChallenge(cfg, s, hash, reportId, challengeId, verdict).Ok? {
      var closed := s.(exo := ExoSys.SetChallengeState(s.exo, hash, reportId, challengeId, verdict.State()));
      var challenger := s.exo.ChallengesOf(hash, reportId)[challengeId].auditor;
      var author := s.exo.ReportsOf(hash)[reportId].auditor;
      PlayEffect(cfg, closed, challenger, author, verdict.Game(), a);
    }
  }

  lemma {:induction false} SignedEffect(r: Run, n: nat, a: AccountId)
    requires n < |r.xs| && r.Succeeds(n) && Dispatcher.NeedsSignature(r.xs[n].call)
    ensures HasEffect(r.cfg, r.At(n), r.At(n + 1), a, EffectOn(r, n, a))
  {
    var x := r.xs[n];
    assert r.Step(n);
    assert Dispatcher.ApplySigned(r.cfg, r.At(n), x.origin.who, x.call) == Ok(r.At(n + 1));
  }

  /** Every step has the effect that its call and outcome announce. */
  lemma {:induction false} StandingStep(r: Run, n: nat, a: AccountId)
    requires n < |r.xs|
    ensures HasEffect(r.cfg, r.At(n), r.At(n + 1), a, EffectOn(r, n, a))
    ensures r.Inherited(n + 1, a) <==> r.Inherited(n, a) && EffectOn(r, n, a) != Left
  {
    assert r.Step(n);
    if r.Succeeds(n) {
      match r.xs[n].call
      case SubmitGame(player0, player1, winner) =>
        PlayEffect(r.cfg, r.At(n), player0, player1, winner, a);
      case CloseChallenge(hash, reportId, challengeId, verdict) =>
        ClosesIff(r, n);
        CloseEffect(r.cfg, r.At(n), hash, reportId, challengeId, verdict, a);
      case _ =>
        SignedEffect(r, n, a);
    }
    InheritedStep(r, n, a);
  }

  lemma {:induction false} InheritedStep(r: Run, n: nat, a: AccountId)
    requires n < |r.xs|
    ensures EffectOn(r, n, a) == Left <==> r.Cancels(n, a)
    ensures r.Inherited(n + 1, a) <==> r.Inherited(n, a) && EffectOn(r, n, a) != Left
  {
  }

  lemma {:induction false} EffectCauses(r: Run, n: nat, a: AccountId)
    requires n < |r.xs|
    ensures EffectOn(r, n, a).Joined? <==> r.SignsUp(n, a)
    ensures EffectOn(r, n, a) == Left <==> r.Cancels(n, a)
    ensures forall b :: EffectOn(r, n, a) == Approved(b) <==> r.Approves(n, b, a)
  {
  }

  /** Games and closings of challenges move no money and file nothing. */
  lemma {:induction false} GameFrame(cfg: Config, s: State, x: Extrinsic)
    requires !Dispatcher.NeedsSignature(x.call)
    ensures
      var t := Dispatcher.Dispatch(cfg, s, x);
      && t.balances == s.balances
      && t.exo.reviews == s.exo.reviews
      && t.exo.reports == s.exo.reports
      && t.exo.vulnerabilities == s.exo.vulnerabilities
      && (x.call.SubmitGame? ==> t.exo == s.exo)
  {
  }
}
