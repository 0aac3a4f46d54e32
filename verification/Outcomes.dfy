/** How each call ends, in any state whatsoever: the error it is refused with, in the order in
    which the conditions are looked at, or success if there is none; and games with known
    scores, played through the calls.
  */
module Outcomes {
  import opened Prelude
  import opened Chain
  import opened EloProofs
  import AuditRep
  import Dispatcher
  import Elo
  import EloLaws
  import ExoSys

  /** The extrinsic is refused with this error and changes nothing; or, without one, succeeds. */
  ghost predicate Ends(cfg: Config, s: State, x: Extrinsic, refusal: Option<Error>) {
    match refusal
    case None => Dispatcher.Apply(cfg, s, x).Ok?
    case Some(e) => Dispatcher.Apply(cfg, s, x) == Err(e) && Dispatcher.Dispatch(cfg, s, x) == s
  }

  // ----- Auditor reputation pallet -----

  lemma {:induction false} SignUpEnds(cfg: Config, s: State, origin: Origin, profile: Hash)
    ensures Ends(cfg, s, Extrinsic(origin, SignUp(profile)),
                 if !origin.Signed? then Some(BadOrigin)
                 else if origin.who in s.auditors then Some(AlreadySignedUp)
                 else if s.balances.Of(origin.who).free < cfg.minAuditorStake then Some(InsufficientBalance)
                 else None)
  {
  }

  /** Success, and the new entry: only the profile differs, of this account only. */
  lemma {:induction false} UpdateProfileEnds(cfg: Config, s: State, origin: Origin, profile: Hash)
    ensures Ends(cfg, s, Extrinsic(origin, UpdateProfile(profile)),
                 if !origin.Signed? then Some(BadOrigin)
                 else if origin.who !in s.auditors then Some(UnknownAuditor)
                 else None)
    ensures origin.Signed? && origin.who in s.auditors ==>
      var t, who := Dispatcher.Dispatch(cfg, s, Extrinsic(origin, UpdateProfile(profile))), origin.who;
      && t.balances == s.balances && t.exo == s.exo && t.events == s.events
      && t.auditors.Keys == s.auditors.Keys
      && t.auditors[who].profileHash == profile
      && t.auditors[who].score == s.auditors[who].score
      && t.auditors[who].approvedBy == s.auditors[who].approvedBy
      && forall a :: a in s.auditors && a != who ==> t.auditors[a] == s.auditors[a]
  {
  }

  lemma {:induction false} CancelAccountEnds(cfg: Config, s: State, origin: Origin)
    ensures Ends(cfg, s, Extrinsic(origin, CancelAccount),
                 if !origin.Signed? then Some(BadOrigin)
                 else if origin.who !in s.auditors then Some(UnknownAuditor)
                 else if && s.ScoreOf(origin.who).Some? && s.ScoreOf(origin.who).value < cfg.initialAuditorScore
                         && s.balances.Of(origin.who).free + s.balances.Of(origin.who).reserved < cfg.minAuditorStake
                 then Some(InsufficientBalance)
                 else None)
  {
  }

  lemma {:induction false} ApproveAuditorEnds(cfg: Config, s: State, origin: Origin, approvee: AccountId)
    ensures Ends(cfg, s, Extrinsic(origin, ApproveAuditor(approvee)),
                 if !origin.Signed? then Some(BadOrigin)
                 else if origin.who !in s.auditors then Some(UnknownAuditor)
                 else if s.ScoreOf(origin.who).None? then Some(UnapprovedAuditor)
                 else if s.ScoreOf(origin.who).value < cfg.minimalApproverScore then Some(ReputationTooLow)
                 else if approvee !in s.auditors then Some(UnknownApprovee)
                 else if s.ScoreOf(approvee).Some? then Some(AlreadyAuditor)
                 else if origin.who in s.auditors[approvee].approvedBy then Some(AlreadyApproved)
                 else if |s.auditors[approvee].approvedBy| >= 3 then Some(StorageOverflow)
                 else None)
  {
  }

  /** What a game is refused for. The two players may be the same account. */
  function GameRefusal(cfg: Config, s: State, player0: AccountId, player1: AccountId, winner: Winner): Option<Error> {
    if player0 !in s.auditors then Some(UnknownAuditor)
    else if s.ScoreOf(player0).None? then Some(UnapprovedAuditor)
    else if player1 !in s.auditors then Some(UnknownAuditor)
    else if s.ScoreOf(player1).None? then Some(UnapprovedAuditor)
    else if !winner.Draw? && !PowersExist(cfg.pow, s.ScoreOf(player0).value, s.ScoreOf(player1).value)
    then Some(UnexpectedEloOverflow)
    else None
  }

  lemma {:induction false} PlayEnds(cfg: Config, s: State, player0: AccountId, player1: AccountId, winner: Winner)
    ensures
      match GameRefusal(cfg, s, player0, player1, winner)
      case None => AuditRep.ApplyResult(cfg, s, player0, player1, winner).Ok?
      case Some(e) => AuditRep.ApplyResult(cfg, s, player0, player1, winner) == Err(e)
  {
  }

  /** Only root may submit a game. */
  lemma {:induction false} SubmitGameEnds(cfg: Config, s: State, origin: Origin, player0: AccountId,
                                          player1: AccountId, winner: Winner)
    ensures Ends(cfg, s, Extrinsic(origin, SubmitGame(player0, player1, winner)),
                 if !origin.Root? then Some(BadOrigin) else GameRefusal(cfg, s, player0, player1, winner))
  {
    PlayEnds(cfg, s, player0, player1, winner);
  }

  // ----- ExoSys pallet -----

  lemma {:induction false} RequestReviewEnds(cfg: Config, s: State, origin: Origin, url: seq<Byte>, hash: Hash,
                                             bounty: nat, minAuditorScore: Score)
    ensures Ends(cfg, s, Extrinsic(origin, RequestReview(url, hash, bounty, minAuditorScore)),
                 if !origin.Signed? then Some(BadOrigin)
                 else if hash in s.exo.reviews then Some(DuplicateReviewFound)
                 else if s.balances.Of(origin.who).free < bounty then Some(InsufficientBalance)
                 else if |url| > 256 then Some(UrlTooLong)
                 else None)
  {
  }

  /** Who may file on a review: a scored auditor with at least the score it asks for. */
  function RankRefusal(s: State, origin: Origin, hash: Hash): Option<Error> {
    if !origin.Signed? then Some(BadOrigin)
    else if hash !in s.exo.reviews then Some(ReviewNotFound)
    else if s.ScoreOf(origin.who).None? || s.ScoreOf(origin.who).value < s.exo.reviews[hash].minAuditorScore
    then Some(NotEnoughReputation)
    else None
  }

  function ReportRefusal(s: State, origin: Origin, hash: Hash): Option<Error> {
    var reports := s.exo.ReportsOf(hash);
    if RankRefusal(s, origin, hash).Some? then RankRefusal(s, origin, hash)
    else if exists i :: 0 <= i < |reports| && reports[i].auditor == origin.who then Some(DuplicateReportFound)
    else if |reports| >= 10 then Some(TooManyReports)
    else None
  }

  lemma {:induction false} ReviewInvalidEnds(cfg: Config, s: State, origin: Origin, hash: Hash)
    ensures Ends(cfg, s, Extrinsic(origin, FileInvalid(hash)), ReportRefusal(s, origin, hash))
  {
  }

  /** A report may have up to 50 vulnerabilities. */
  lemma {:induction false} ReviewReportEnds(cfg: Config, s: State, origin: Origin, hash: Hash,
                                            found: seq<Vulnerability>)
    requires |found| <= 50
    ensures Ends(cfg, s, Extrinsic(origin, FileReport(hash, found)), ReportRefusal(s, origin, hash))
  {
  }

  lemma {:induction false} ChallengeReportEnds(cfg: Config, s: State, origin: Origin, hash: Hash, reportId: ReportId,
                                               demands: Demands)
    ensures
      var challenges := s.exo.ChallengesOf(hash, reportId);
      Ends(cfg, s, Extrinsic(origin, ChallengeReport(hash, reportId, demands)),
           if RankRefusal(s, origin, hash).Some? then RankRefusal(s, origin, hash)
           else if reportId >= |s.exo.ReportsOf(hash)| then Some(ReportNotFound)
           else if s.exo.ReportsOf(hash)[reportId].auditor == origin.who then Some(CannotChallengeSelf)
           else if exists i :: 0 <= i < |challenges| && challenges[i].auditor == origin.who
           then Some(DuplicateChallengeFound)
           else if |challenges| >= 10 then Some(TooManyChallenges)
           else None)
  {
  }

  /** The challenger is player 0, the author of the report player 1. */
  lemma {:induction false} CloseChallengeEnds(cfg: Config, s: State, origin: Origin, hash: Hash, reportId: ReportId,
                                              challengeId: ChallengeId, verdict: Verdict)
    ensures
      var reports, challenges := s.exo.ReportsOf(hash), s.exo.ChallengesOf(hash, reportId);
      var winner := match verdict case Approve => Player0 case Reject => Player1 case Remove => Draw;
      Ends(cfg, s, Extrinsic(origin, CloseChallenge(hash, reportId, challengeId, verdict)),
           if !cfg.mayClose(verdict, origin) then Some(BadOrigin)
           else if reportId >= |reports| then Some(ReportNotFound)
           else if challengeId >= |challenges| then Some(ChallengeNotFound)
           else GameRefusal(cfg, s, challenges[challengeId].auditor, reports[reportId].auditor, winner))
  {
    if reportId < |s.exo.ReportsOf(hash)| && challengeId < |s.exo.ChallengesOf(hash, reportId)| {
      var exo := ExoSys.SetChallengeState(s.exo, hash, reportId, challengeId, verdict.State());
      PlayEnds(cfg, s.(exo := exo), s.exo.ChallengesOf(hash, reportId)[challengeId].auditor,
               s.exo.ReportsOf(hash)[reportId].auditor, verdict.Game());
    }
  }

  // ----- Balances -----

  lemma {:induction false} TransferEnds(cfg: Config, s: State, origin: Origin, to: AccountId, amount: nat)
    ensures Ends(cfg, s, Extrinsic(origin, Transfer(to, amount)),
                 if !origin.Signed? then Some(BadOrigin)
                 else if s.balances.Of(origin.who).free < amount then Some(InsufficientBalance)
                 else None)
  {
  }

  // ----- Games with known scores -----

  /** Between two players of 2000 points, the winner ends with 2016 and the looser with 1984. */
  lemma {:induction false} EqualsPlay(cfg: Config, s: State, a: AccountId, b: AccountId)
    requires a != b && cfg.pow(0) == Some(Elo.ONE)
    requires s.ScoreOf(a) == s.ScoreOf(b) == Some(2000)
    ensures
      var t := Dispatcher.Dispatch(cfg, s, Extrinsic(Root, SubmitGame(a, b, Player0)));
      t.ScoreOf(a) == Some(2016) && t.ScoreOf(b) == Some(1984)
    ensures
      var t := Dispatcher.Dispatch(cfg, s, Extrinsic(Root, SubmitGame(a, b, Player1)));
      t.ScoreOf(a) == Some(1984) && t.ScoreOf(b) == Some(2016)
  {
    EloLaws.EqualMatch(AuditRep.ELO, cfg.pow, 2000);
  }

  /** Between 1200 and 1400 points, the outcomes are 1224 and 1376, or 1192 and 1408. */
  lemma {:induction false} UnequalsPlay(cfg: Config, s: State, a: AccountId, b: AccountId, p: Elo.PowRaw, q: Elo.PowRaw)
    requires a != b && s.ScoreOf(a) == Some(1200) && s.ScoreOf(b) == Some(1400)
    requires cfg.pow(HALF) == Some(p) && cfg.pow(-HALF) == Some(q)
    requires 3 * Elo.ONE <= p <= 13 * Elo.ONE / 4 && 5 * Elo.ONE / 16 <= q <= 11 * Elo.ONE / 32
    ensures
      var t := Dispatcher.Dispatch(cfg, s, Extrinsic(Root, SubmitGame(a, b, Player0)));
      t.ScoreOf(a) == Some(1224) && t.ScoreOf(b) == Some(1376)
    ensures
      var t := Dispatcher.Dispatch(cfg, s, Extrinsic(Root, SubmitGame(a, b, Player1)));
      t.ScoreOf(a) == Some(1192) && t.ScoreOf(b) == Some(1408)
  {
    EloLaws.KnownRatings(AuditRep.ELO, cfg.pow, p, q);
  }
}
