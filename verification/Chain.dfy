/** The data both pallets keep on chain, the events they deposit and the errors they return. */
module Chain {
  import opened Prelude
  import Elo

  type AccountId = nat
  type Hash = nat
  type Score = U32
  type ReportId = U32
  type ChallengeId = U32

  // ----- Auditor reputation pallet -----

  const MAX_APPROVALS: nat := 3

  type ApprovedBy = s: seq<AccountId> | |s| <= MAX_APPROVALS

  /** An auditor without a score is signed up but not yet approved. */
  datatype AuditorData = AuditorData(score: Option<Score>, profileHash: Hash, approvedBy: ApprovedBy)

  datatype Winner = Player0 | Player1 | Draw

  // ----- ExoSys pallet -----

  const MAX_URL_LENGTH: nat := 256
  const MAX_REPORTS_PER_REVIEW: nat := 10
  const MAX_VULNERABILITIES_PER_REPORT: nat := 50
  const MAX_CHALLENGES_PER_REPORT: nat := 10

  type Byte = x: int | 0 <= x < 256
  type Url = s: seq<Byte> | |s| <= MAX_URL_LENGTH

  datatype Review = Review(requestor: AccountId, minAuditorScore: Score, bounty: nat, hash: Hash, url: Url)

  datatype Tool = Manual | Clippy | CargoAudit | Octopus

  datatype Vulnerability = Vulnerability(tool: Tool, classification: nat, risk: Byte, description: string)

  type Vulnerabilities = s: seq<Vulnerability> | |s| <= MAX_VULNERABILITIES_PER_REPORT

  datatype ReportKind = Invalid | Success

  datatype Report = Report(auditor: AccountId, kind: ReportKind)

  type Reports = s: seq<Report> | |s| <= MAX_REPORTS_PER_REVIEW

  datatype ChallengeState = Removed | Pending | Accepted | Rejected

  datatype PatchVulnerability = PatchVulnerability(
    vulnerabilityId: U32, risk: Option<Byte>, classification: Option<nat>, description: Option<string>)

  type VulnerabilityIds = s: seq<U32> | |s| <= MAX_VULNERABILITIES_PER_REPORT

  type Patches = s: seq<PatchVulnerability> | |s| <= MAX_VULNERABILITIES_PER_REPORT

  /** What a challenger asks for; no operation ever applies it. */
  datatype Demands = Demands(remove: VulnerabilityIds, add: Vulnerabilities, patch: Patches)

  datatype Challenge = Challenge(auditor: AccountId, state: ChallengeState, demands: Demands)

  type Challenges = s: seq<Challenge> | |s| <= MAX_CHALLENGES_PER_REPORT

  // ----- Currency -----

  datatype Account = Account(free: nat, reserved: nat)

  // ----- Events of both pallets, errors -----

  datatype Event =
    | SignedUp(who: AccountId)
    | GameResult(player0: AccountId, player1: AccountId, winner: Winner)
    | ReviewRequest(requestor: AccountId, minAuditorScore: Score, bounty: nat, url: Url, hash: Hash)
    | ReviewInvalid(hash: Hash, reportId: ReportId, auditor: AccountId)
    | ReviewReportCreated(hash: Hash, reportId: ReportId, auditor: AccountId)
    | VulnerabilityAdded(hash: Hash, reportId: ReportId, vulnerabilityId: U32, vulnerability: Vulnerability)
    | ChallengeStarted(hash: Hash, reportId: ReportId, challengeId: ChallengeId, auditor: AccountId)
    | ChallengeAccepted(hash: Hash, reportId: ReportId, challengeId: ChallengeId)
    | ChallengeRejected(hash: Hash, reportId: ReportId, challengeId: ChallengeId)
    | ChallengeRemoved(hash: Hash, reportId: ReportId, challengeId: ChallengeId)

  datatype Error =
    | BadOrigin
    | InsufficientBalance
    | StorageOverflow
    | AlreadySignedUp
    | UnknownAuditor
    | UnapprovedAuditor
    | ReputationTooLow
    | UnknownApprovee
    | AlreadyAuditor
    | AlreadyApproved
    | UnexpectedEloOverflow
    | UrlTooLong
    | ReviewNotFound
    | DuplicateReviewFound
    | NotEnoughReputation
    | ReportNotFound
    | DuplicateReportFound
    | TooManyReports
    | CannotChallengeSelf
    | TooManyChallenges
    | ChallengeNotFound
    | DuplicateChallengeFound

  datatype Result<+T> = Ok(value: T) | Err(error: Error) {
    predicate IsFailure() {
      Err?
    }

    function PropagateFailure<U>(): Result<U>
      requires Err?
    {
      Err(error)
    }

    function Extract(): T
      requires Ok?
    {
      value
    }

    function Map<U>(f: T -> U): Result<U> {
      match this
      case Ok(value) => Ok(f(value))
      case Err(error) => Err(error)
    }
  }

  function Need(condition: bool, error: Error): Result<()> {
    if condition then Ok(()) else Err(error)
  }

  // ----- Configuration and calls -----

  /** How the council, or root, closes a challenge. */
  datatype Verdict = Approve | Reject | Remove {
    /** The state the challenge is left in. */
    function State(): ChallengeState {
      match this
      case Approve => Accepted
      case Reject => ChallengeState.Rejected
      case Remove => ChallengeState.Removed
    }

    /** The event that announces the closing. */
    function Closing(hash: Hash, reportId: ReportId, challengeId: ChallengeId): Event {
      match this
      case Approve => ChallengeAccepted(hash, reportId, challengeId)
      case Reject => ChallengeRejected(hash, reportId, challengeId)
      case Remove => ChallengeRemoved(hash, reportId, challengeId)
    }

    /** The game that is played; player 0 is the challenger, player 1 the author of the report. */
    function Game(): Winner {
      match this
      case Approve => Player0
      case Reject => Player1
      case Remove => Draw
    }
  }

  datatype Origin = Signed(who: AccountId) | Root | CouncilMajority | Unsigned

  /** The constants and the origin filters a runtime supplies to the two pallets. */
  datatype Config = Config(
    minAuditorStake: nat,
    initialAuditorScore: Score,
    minimalApproverScore: Score,
    mayClose: (Verdict, Origin) -> bool,
    pow: Elo.Pow)

  datatype Call =
    | SignUp(profileHash: Hash)
    | UpdateProfile(profileHash: Hash)
    | CancelAccount
    | ApproveAuditor(toApprove: AccountId)
    | SubmitGame(player0: AccountId, player1: AccountId, winner: Winner)
    | RequestReview(url: seq<Byte>, hash: Hash, bounty: nat, minAuditorScore: Score)
    | FileInvalid(hash: Hash)
    | FileReport(hash: Hash, vulnerabilities: Vulnerabilities)
    | ChallengeReport(hash: Hash, reportId: ReportId, demands: Demands)
    | CloseChallenge(hash: Hash, reportId: ReportId, challengeId: ChallengeId, verdict: Verdict)
    | Transfer(to: AccountId, amount: nat)

  datatype Extrinsic = Extrinsic(origin: Origin, call: Call)

  // ----- Storage -----

  datatype Balances = Balances(accounts: map<AccountId, Account>, issuance: int) {
    function Of(who: AccountId): Account {
      if who in accounts then accounts[who] else Account(0, 0)
    }
  }

  datatype Exo = Exo(
    reviews: map<Hash, Review>,
    reports: map<Hash, Reports>,
    vulnerabilities: map<(Hash, ReportId), Vulnerabilities>,
    challenges: map<(Hash, ReportId), Challenges>)
  {
    function ReportsOf(hash: Hash): Reports {
      if hash in reports then reports[hash] else []
    }

    function ChallengesOf(hash: Hash, reportId: ReportId): Challenges {
      if (hash, reportId) in challenges then challenges[(hash, reportId)] else []
    }
  }

  const NO_EXO: Exo := Exo(map[], map[], map[], map[])

  datatype State = State(auditors: map<AccountId, AuditorData>, balances: Balances, exo: Exo, events: seq<Event>) {
    function ScoreOf(who: AccountId): Option<Score> {
      if who in auditors then auditors[who].score else None
    }
  }
}
