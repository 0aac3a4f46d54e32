/** The review, report and challenge pallet on values: what each of its calls does to the storage. */
module ExoSys {
  import opened Chain
  import AuditRep
  import Currency

  function RequestReview(s: State, requestor: AccountId, url: seq<Byte>, hash: Hash, bounty: nat,
                         minAuditorScore: Score): Result<State>
  {
    var _ :- Need(hash !in s.exo.reviews, DuplicateReviewFound);
    var balances :- Currency.Reserve(s.balances, requestor, bounty);
    var _ :- Need(|url| <= MAX_URL_LENGTH, UrlTooLong);
    var review := Review(requestor, minAuditorScore, bounty, hash, url);
    Ok(s.(balances := balances,
          exo := s.exo.(reviews := s.exo.reviews[hash := review]),
          events := s.events + [ReviewRequest(requestor, minAuditorScore, bounty, url, hash)]))
  }

  /** Only an auditor with the score the review asks for may file on it. */
  function AuditReview(s: State, auditor: AccountId, hash: Hash): Result<()> {
    var _ :- Need(hash in s.exo.reviews, ReviewNotFound);
    Need(AuditRep.HasEnoughRank(s, auditor, s.exo.reviews[hash].minAuditorScore), NotEnoughReputation)
  }

  predicate HasReportBy(reports: Reports, auditor: AccountId) {
    exists r | r in reports :: r.auditor == auditor
  }

  predicate HasChallengeBy(challenges: Challenges, auditor: AccountId) {
    exists c | c in challenges :: c.auditor == auditor
  }

  function NewReportId(s: State, auditor: AccountId, hash: Hash): Result<ReportId> {
    var _ :- Need(!HasReportBy(s.exo.ReportsOf(hash), auditor), DuplicateReportFound);
    Ok(|s.exo.ReportsOf(hash)|)
  }

  function AppendReport(exo: Exo, hash: Hash, report: Report): Result<Exo> {
    var reports := exo.ReportsOf(hash);
    var _ :- Need(|reports| < MAX_REPORTS_PER_REVIEW, TooManyReports);
    Ok(exo.(reports := exo.reports[hash := reports + [report]]))
  }

  function FileInvalid(s: State, auditor: AccountId, hash: Hash): Result<State> {
    var _ :- AuditReview(s, auditor, hash);
    var reportId :- NewReportId(s, auditor, hash);
    var exo :- AppendReport(s.exo, hash, Report(auditor, Invalid));
    Ok(s.(exo := exo, events := s.events + [Event.ReviewInvalid(hash, reportId, auditor)]))
  }

  /** One event for each vulnerability, numbered from 0. */
  function VulnerabilityEvents(hash: Hash, reportId: ReportId, vulnerabilities: Vulnerabilities)
    : (events: seq<Event>)
    ensures |events| == |vulnerabilities|
  {
    seq(|vulnerabilities|, i requires 0 <= i < |vulnerabilities| =>
      VulnerabilityAdded(hash, reportId, i, vulnerabilities[i]))
  }

  function FileReport(s: State, auditor: AccountId, hash: Hash, vulnerabilities: Vulnerabilities): Result<State> {
    var _ :- AuditReview(s, auditor, hash);
    var reportId :- NewReportId(s, auditor, hash);
    var exo :- AppendReport(s.exo, hash, Report(auditor, Success));
    Ok(s.(exo := exo.(vulnerabilities := exo.vulnerabilities[(hash, reportId) := vulnerabilities]),
          events := s.events + [ReviewReportCreated(hash, reportId, auditor)]
                    + VulnerabilityEvents(hash, reportId, vulnerabilities)))
  }

  function ReportAuditor(exo: Exo, hash: Hash, reportId: ReportId): Result<AccountId> {
    var _ :- Need(reportId < |exo.ReportsOf(hash)|, ReportNotFound);
    Ok(exo.ReportsOf(hash)[reportId].auditor)
  }

  function NewChallengeId(s: State, auditor: AccountId, hash: Hash, reportId: ReportId): Result<ChallengeId> {
    var _ :- Need(!HasChallengeBy(s.exo.ChallengesOf(hash, reportId), auditor), DuplicateChallengeFound);
    Ok(|s.exo.ChallengesOf(hash, reportId)|)
  }

  function AppendChallenge(exo: Exo, hash: Hash, reportId: ReportId, challenge: Challenge): Result<Exo> {
    var challenges := exo.ChallengesOf(hash, reportId);
    var _ :- Need(|challenges| < MAX_CHALLENGES_PER_REPORT, TooManyChallenges);
    Ok(exo.(challenges := exo.challenges[(hash, reportId) := challenges + [challenge]]))
  }

  function ChallengeReport(s: State, auditor: AccountId, hash: Hash, reportId: ReportId, demands: Demands)
    : Result<State>
  {
    var _ :- AuditReview(s, auditor, hash);
    var reportAuditor :- ReportAuditor(s.exo, hash, reportId);
    var _ :- Need(reportAuditor != auditor, CannotChallengeSelf);
    var challengeId :- NewChallengeId(s, auditor, hash, reportId);
    var exo :- AppendChallenge(s.exo, hash, reportId, Challenge(auditor, Pending, demands));
    Ok(s.(exo := exo, events := s.events + [ChallengeStarted(hash, reportId, challengeId, auditor)]))
  }

  function SetChallengeState(exo: Exo, hash: Hash, reportId: ReportId, challengeId: ChallengeId,
                             state: ChallengeState): Exo
    requires challengeId < |exo.ChallengesOf(hash, reportId)|
  {
    var challenges := exo.ChallengesOf(hash, reportId);
    var closed := challenges[challengeId].(state := state);
    exo.(challenges := exo.challenges[(hash, reportId) := challenges[challengeId := closed]])
  }

  /** Sets the state of the challenge, whatever it was before, and plays the game. */
  function SetStateAndPlay(cfg: Config, s: State, hash: Hash, reportId: ReportId, challengeId: ChallengeId,
                           state: ChallengeState, winner: Winner): Result<State>
  {
    var reportAuditor :- ReportAuditor(s.exo, hash, reportId);
    var challenges := s.exo.ChallengesOf(hash, reportId);
    var _ :- Need(challengeId < |challenges|, ChallengeNotFound);
    var exo := SetChallengeState(s.exo, hash, reportId, challengeId, state);
    AuditRep.ApplyResult(cfg, s.(exo := exo), challenges[challengeId].auditor, reportAuditor, winner)
  }

  function CloseChallenge(cfg: Config, s: State, hash: Hash, reportId: ReportId, challengeId: ChallengeId,
                          verdict: Verdict): Result<State>
  {
    var played :- SetStateAndPlay(cfg, s, hash, reportId, challengeId, verdict.State(), verdict.Game());
    Ok(played.(events := played.events + [verdict.Closing(hash, reportId, challengeId)]))
  }
}
