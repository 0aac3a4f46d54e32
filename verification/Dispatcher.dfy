/** One extrinsic on values: origin checks, the call, and rollback of everything on an error. */
module Dispatcher {
  import opened Chain
  import AuditRep
  import Currency
  import ExoSys

  function Apply(cfg: Config, s: State, x: Extrinsic): Result<State> {
    match x.call
    case SubmitGame(player0, player1, winner) =>
      var _ :- Need(x.origin.Root?, BadOrigin);
      AuditRep.ApplyResult(cfg, s, player0, player1, winner)
    case CloseChallenge(hash, reportId, challengeId, verdict) =>
      var _ :- Need(cfg.mayClose(verdict, x.origin), BadOrigin);
      ExoSys.CloseChallenge(cfg, s, hash, reportId, challengeId, verdict)
    case _ =>
      var _ :- Need(x.origin.Signed?, BadOrigin);
      ApplySigned(cfg, s, x.origin.who, x.call)
  }

  predicate NeedsSignature(call: Call) {
    !call.SubmitGame? && !call.CloseChallenge?
  }

  function ApplySigned(cfg: Config, s: State, who: AccountId, call: Call): Result<State>
    requires NeedsSignature(call)
  {
    match call
    case SignUp(profileHash) => AuditRep.SignUp(cfg, s, who, profileHash)
    case UpdateProfile(profileHash) => AuditRep.UpdateProfile(s, who, profileHash)
    case CancelAccount => AuditRep.CancelAccount(cfg, s, who)
    case ApproveAuditor(toApprove) => AuditRep.ApproveAuditor(cfg, s, who, toApprove)
    case RequestReview(url, hash, bounty, minAuditorScore) =>
      ExoSys.RequestReview(s, who, url, hash, bounty, minAuditorScore)
    case FileInvalid(hash) => ExoSys.FileInvalid(s, who, hash)
    case FileReport(hash, vulnerabilities) => ExoSys.FileReport(s, who, hash, vulnerabilities)
    case ChallengeReport(hash, reportId, demands) => ExoSys.ChallengeReport(s, who, hash, reportId, demands)
    case Transfer(to, amount) =>
      var balances :- Currency.Transfer(s.balances, who, to, amount);
      Ok(s.(balances := balances))
  }

  function Dispatch(cfg: Config, s: State, x: Extrinsic): State {
    match Apply(cfg, s, x)
    case Ok(t) => t
    case Err(_) => s
  }
}
