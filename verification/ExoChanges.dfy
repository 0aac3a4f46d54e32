/** Every extrinsic changes ExoSys storage in one of a few elementary ways. */
module ExoChanges {
  import opened Chain
  import Dispatcher
  import ExoSys

  datatype ExoChange =
    | Nothing
    | Requested(review: Review)
    | FiledInvalid(hash: Hash, auditor: AccountId)
    | FiledReport(hash: Hash, auditor: AccountId, found: Vulnerabilities)
    | Challenged(hash: Hash, reportId: ReportId, auditor: AccountId, demands: Demands)
    | Closed(hash: Hash, reportId: ReportId, challengeId: ChallengeId, verdict: Verdict)

  /** The change an extrinsic makes, if it succeeds. */
  function ChangeBy(cfg: Config, s: State, x: Extrinsic): ExoChange {
    if Dispatcher.Apply(cfg, s, x).Err? then
      Nothing
    else
      match x.call
      case RequestReview(url, hash, bounty, minAuditorScore) =>
        Requested(Review(x.origin.who, minAuditorScore, bounty, hash, url))
      case FileInvalid(hash) => FiledInvalid(hash, x.origin.who)
      case FileReport(hash, found) => FiledReport(hash, x.origin.who, found)
      case ChallengeReport(hash, reportId, demands) => Challenged(hash, reportId, x.origin.who, demands)
      case CloseChallenge(hash, reportId, challengeId, verdict) => Closed(hash, reportId, challengeId, verdict)
      case _ => Nothing
  }

  /** A new report: the review exists, has room, and has no report by this auditor yet. */
  predicate MayFile(exo: Exo, hash: Hash, auditor: AccountId) {
    && hash in exo.reviews
    && |exo.ReportsOf(hash)| < MAX_REPORTS_PER_REVIEW
    && !ExoSys.HasReportBy(exo.ReportsOf(hash), auditor)
  }

  /** What storage must look like for a change to be made at all. */
  predicate Allowed(exo: Exo, c: ExoChange) {
    match c
    case Nothing => true
    case Requested(review) => review.hash !in exo.reviews
    case FiledInvalid(hash, auditor) => MayFile(exo, hash, auditor)
    case FiledReport(hash, auditor, _) => MayFile(exo, hash, auditor)
    case Challenged(hash, reportId, auditor, _) =>
      && hash in exo.reviews
      && reportId < |exo.ReportsOf(hash)|
      && exo.ReportsOf(hash)[reportId].auditor != auditor
      && |exo.ChallengesOf(hash, reportId)| < MAX_CHALLENGES_PER_REPORT
      && !ExoSys.HasChallengeBy(exo.ChallengesOf(hash, reportId), auditor)
    case Closed(hash, reportId, challengeId, _) =>
      && reportId < |exo.ReportsOf(hash)|
      && challengeId < |exo.ChallengesOf(hash, reportId)|
  }

  function AddReport(exo: Exo, hash: Hash, report: Report): Exo
    requires |exo.ReportsOf(hash)| < MAX_REPORTS_PER_REVIEW
  {
    exo.(reports := exo.reports[hash := exo.ReportsOf(hash) + [report]])
  }

  function Changed(exo: Exo, c: ExoChange): Exo
    requires Allowed(exo, c)
  {
    match c
    case Nothing => exo
    case Requested(review) => exo.(reviews := exo.reviews[review.hash := review])
    case FiledInvalid(hash, auditor) => AddReport(exo, hash, Report(auditor, Invalid))
    case FiledReport(hash, auditor, found) =>
      AddReport(exo, hash, Report(auditor, Success))
        .(vulnerabilities := exo.vulnerabilities[(hash, |exo.ReportsOf(hash)|) := found])
    case Challenged(hash, reportId, auditor, demands) =>
      var challenge := Challenge(auditor, Pending, demands);
      exo.(challenges := exo.challenges[(hash, reportId) := exo.ChallengesOf(hash, reportId) + [challenge]])
    case Closed(hash, reportId, challengeId, verdict) =>
      ExoSys.SetChallengeState(exo, hash, reportId, challengeId, verdict.State())
  }

  /** The ExoSys events that announce a change: one, and one per vulnerability. */
  function EventsOf(exo: Exo, c: ExoChange): (events: seq<Event>)
    requires Allowed(exo, c)
    ensures |events| <= 51
  {
    match c
    case Nothing => []
    case Requested(review) =>
      [ReviewRequest(review.requestor, review.minAuditorScore, review.bounty, review.url, review.hash)]
    case FiledInvalid(hash, auditor) => [Event.ReviewInvalid(hash, |exo.ReportsOf(hash)|, auditor)]
    case FiledReport(hash, auditor, found) =>
      [ReviewReportCreated(hash, |exo.ReportsOf(hash)|, auditor)]
      + ExoSys.VulnerabilityEvents(hash, |exo.ReportsOf(hash)|, found)
    case Challenged(hash, reportId, auditor, _) =>
      [ChallengeStarted(hash, reportId, |exo.ChallengesOf(hash, reportId)|, auditor)]
    case Closed(hash, reportId, challengeId, verdict) => [verdict.Closing(hash, reportId, challengeId)]
  }

  /** The event of the other pallet that an extrinsic deposits first, if it succeeds: of a sign-up
      or of a game. */
  function AuditRepEvents(cfg: Config, s: State, x: Extrinsic): seq<Event> {
    if Dispatcher.Apply(cfg, s, x).Err? then
      []
    else
      match x.call
      case SignUp(_) => [SignedUp(x.origin.who)]
      case SubmitGame(player0, player1, winner) => [Event.GameResult(player0, player1, winner)]
      case CloseChallenge(hash, reportId, challengeId, verdict) =>
        var challenger := s.exo.ChallengesOf(hash, reportId)[challengeId].auditor;
        var author := s.exo.ReportsOf(hash)[reportId].auditor;
        [Event.GameResult(challenger, author, verdict.Game())]
      case _ => []
  }

  /** Storage changes as announced; exactly the announced events are added. */
  ghost predicate Makes(s: State, t: State, c: ExoChange, first: seq<Event>) {
    && Allowed(s.exo, c)
    && t.exo == Changed(s.exo, c)
    && t.events == s.events + first + EventsOf(s.exo, c)
  }

  /** Every extrinsic makes one elementary change, and deposits exactly its events. */
  lemma {:induction false} ExoStep(cfg: Config, s: State, x: Extrinsic)
    ensures Makes(s, Dispatcher.Dispatch(cfg, s, x), ChangeBy(cfg, s, x), AuditRepEvents(cfg, s, x))
  {
    if Dispatcher.Apply(cfg, s, x).Ok? {
      match x.call
      case SubmitGame(_, _, _) =>
      case CloseChallenge(_, _, _, _) =>
        ClosedEvents(cfg, s, x);
      case _ =>
        SignedExoStep(cfg, s, x);
    }
  }

  lemma {:induction false} ClosedEvents(cfg: Config, s: State, x: Extrinsic)
    requires x.call.CloseChallenge? && Dispatcher.Apply(cfg, s, x).Ok?
    ensures Makes(s, Dispatcher.Dispatch(cfg, s, x), ChangeBy(cfg, s, x), AuditRepEvents(cfg, s, x))
  {
  }

  lemma {:induction false} SignedExoStep(cfg: Config, s: State, x: Extrinsic)
    requires Dispatcher.Apply(cfg, s, x).Ok? && Dispatcher.NeedsSignature(x.call)
    ensures Makes(s, Dispatcher.Dispatch(cfg, s, x), ChangeBy(cfg, s, x), AuditRepEvents(cfg, s, x))
  {
  }
}
