/** The storage of both pallets and their calls, which change it step by step.

    A call that returns an error may leave its earlier writes behind; `Dispatch` runs
    every call in a storage layer and undoes them. Each call is proved against the
    function that gives its effect on values.
  */
module Runtime {
  import opened Prelude
  import opened Chain
  import AuditRep
  import Currency
  import Dispatcher
  import ExoSys
  import Runs

  /** The outcome of a call is the one the value-level effect prescribes; the storage is
      only determined on success. */
  ghost predicate Agrees(r: Result<()>, after: State, effect: Result<State>) {
    match effect
    case Ok(t) => r == Ok(()) && after == t
    case Err(e) => r == Err(e)
  }

  function EnsureSigned(origin: Origin): Result<AccountId> {
    if origin.Signed? then Ok(origin.who) else Err(BadOrigin)
  }

  class Node {
    const cfg: Config

    // Auditor reputation pallet
    var auditorMap: map<AccountId, AuditorData>

    // Balances
    var accounts: map<AccountId, Account>
    var issuance: int

    // ExoSys pallet
    var reviews: map<Hash, Review>
    var reports: map<Hash, Reports>
    var vulnerabilities: map<(Hash, ReportId), Vulnerabilities>
    var challenges: map<(Hash, ReportId), Challenges>

    // Events since genesis
    var events: seq<Event>

    // The run that led here
    ghost var history: Runs.Run

    /** The storage is the last state of the recorded run. */
    ghost predicate Valid()
      reads this
    {
      && history.cfg == cfg
      && history.At(|history.xs|) == Snapshot()
    }

    function Snapshot(): State
      reads this
    {
      State(auditorMap, Balances(accounts, issuance), Exo(reviews, reports, vulnerabilities, challenges), events)
    }

    /** Genesis: the listed auditors, the given balances, nothing else. */
    constructor (cfg: Config, entries: seq<(AccountId, AuditorData)>, balances: Balances)
      ensures this.cfg == cfg
      ensures Snapshot() == State(AuditRep.BuildGenesis(entries), balances, NO_EXO, [])
      ensures Valid() && history.xs == []
    {
      this.cfg := cfg;
      auditorMap := map[];
      accounts, issuance := balances.accounts, balances.issuance;
      reviews, reports, vulnerabilities, challenges := map[], map[], map[], map[];
      events := [];
      new;
      for i := 0 to |entries|
        invariant Snapshot() == State(AuditRep.BuildGenesis(entries[..i]), balances, NO_EXO, [])
      {
        auditorMap := auditorMap[entries[i].0 := entries[i].1];
        assert entries[..i + 1][..i] == entries[..i];
      }
      assert entries[..|entries|] == entries;
      history := Runs.Execute(this.cfg, Snapshot(), []);
    }

    method DepositEvent(event: Event)
      modifies this`events
      ensures events == old(events) + [event]
    {
      events := events + [event];
    }

    // ----- Currency -----

    function AccountOf(who: AccountId): Account
      reads this`accounts
    {
      if who in accounts then accounts[who] else Account(0, 0)
    }

    method Reserve(who: AccountId, amount: nat) returns (r: Result<()>)
      modifies this`accounts
      ensures Agrees(r, Snapshot(), Currency.Reserve(old(Snapshot()).balances, who, amount)
                                    .Map(b => old(Snapshot()).(balances := b)))
    {
      if amount == 0 {
        return Ok(());
      }
      var account := AccountOf(who);
      var _ :- Need(account.free >= amount, InsufficientBalance);
      accounts := accounts[who := Account(account.free - amount, account.reserved + amount)];
      return Ok(());
    }

    method Unreserve(who: AccountId, amount: nat)
      modifies this`accounts
      ensures Snapshot() == old(Snapshot()).(balances := Currency.Unreserve(old(Snapshot()).balances, who, amount))
    {
      var account := AccountOf(who);
      var actual := if account.reserved <= amount then account.reserved else amount;
      accounts := accounts[who := Account(account.free + actual, account.reserved - actual)];
    }

    method Withdraw(who: AccountId, amount: nat) returns (r: Result<()>)
      modifies this`accounts, this`issuance
      ensures Agrees(r, Snapshot(), Currency.Burn(old(Snapshot()).balances, who, amount)
                                    .Map(b => old(Snapshot()).(balances := b)))
    {
      var account := AccountOf(who);
      var _ :- Need(account.free >= amount, InsufficientBalance);
      accounts := accounts[who := account.(free := account.free - amount)];
      issuance := issuance - amount;
      return Ok(());
    }

    method Transfer(origin: Origin, to: AccountId, amount: nat) returns (r: Result<()>)
      modifies this
      ensures Agrees(r, Snapshot(),
                     Dispatcher.Apply(cfg, old(Snapshot()), Extrinsic(origin, Call.Transfer(to, amount))))
    {
      var from :- EnsureSigned(origin);
      var source := AccountOf(from);
      var _ :- Need(source.free >= amount, InsufficientBalance);
      accounts := accounts[from := source.(free := source.free - amount)];
      var target := AccountOf(to);
      accounts := accounts[to := target.(free := target.free + amount)];
      return Ok(());
    }

    // ----- Auditor reputation pallet -----

    method SignUp(origin: Origin, profileHash: Hash) returns (r: Result<()>)
      modifies this
      ensures Agrees(r, Snapshot(), Dispatcher.Apply(cfg, old(Snapshot()), Extrinsic(origin, Call.SignUp(profileHash))))
    {
      var sender :- EnsureSigned(origin);
      var _ :- Need(sender !in auditorMap, AlreadySignedUp);
      var _ :- Reserve(sender, cfg.minAuditorStake);
      auditorMap := auditorMap[sender := AuditorData(None, profileHash, [])];
      DepositEvent(SignedUp(sender));
      return Ok(());
    }

    method UpdateProfile(origin: Origin, profileHash: Hash) returns (r: Result<()>)
      modifies this
      ensures Agrees(r, Snapshot(),
                     Dispatcher.Apply(cfg, old(Snapshot()), Extrinsic(origin, Call.UpdateProfile(profileHash))))
    {
      var sender :- EnsureSigned(origin);
      var _ :- Need(sender in auditorMap, UnknownAuditor);
      var data := auditorMap[sender];
      auditorMap := auditorMap[sender := data.(profileHash := profileHash)];
      return Ok(());
    }

    method CancelAccount(origin: Origin) returns (r: Result<()>)
      modifies this
      ensures Agrees(r, Snapshot(), Dispatcher.Apply(cfg, old(Snapshot()), Extrinsic(origin, Call.CancelAccount)))
    {
      var sender :- EnsureSigned(origin);
      var _ :- Need(sender in auditorMap, UnknownAuditor);
      var account := auditorMap[sender];
      Unreserve(sender, cfg.minAuditorStake);
      if account.score.Some? && account.score.value < cfg.initialAuditorScore {
        var _ :- Withdraw(sender, cfg.minAuditorStake);
      }
      auditorMap := auditorMap - {sender};
      return Ok(());
    }

    method ApproveAuditor(origin: Origin, toApprove: AccountId) returns (r: Result<()>)
      modifies this
      ensures Agrees(r, Snapshot(),
                     Dispatcher.Apply(cfg, old(Snapshot()), Extrinsic(origin, Call.ApproveAuditor(toApprove))))
    {
      var sender :- EnsureSigned(origin);
      var _ :- Need(sender in auditorMap, UnknownAuditor);
      var senderScore := auditorMap[sender].score;
      var _ :- Need(senderScore.Some?, UnapprovedAuditor);
      var _ :- Need(senderScore.value >= cfg.minimalApproverScore, ReputationTooLow);
      var _ :- Need(toApprove in auditorMap, UnknownApprovee);
      var data := auditorMap[toApprove];
      var _ :- Need(data.score.None?, AlreadyAuditor);
      var _ :- Need(sender !in data.approvedBy, AlreadyApproved);
      var _ :- Need(|data.approvedBy| < MAX_APPROVALS, StorageOverflow);
      data := data.(approvedBy := data.approvedBy + [sender]);
      if |data.approvedBy| == 3 {
        data := data.(score := Some(cfg.initialAuditorScore));
      }
      auditorMap := auditorMap[toApprove := data];
      return Ok(());
    }

    method SubmitGame(origin: Origin, player0: AccountId, player1: AccountId, winner: Winner) returns (r: Result<()>)
      modifies this
      ensures Agrees(r, Snapshot(),
                     Dispatcher.Apply(cfg, old(Snapshot()),
                                      Extrinsic(origin, Call.SubmitGame(player0, player1, winner))))
    {
      var _ :- Need(origin.Root?, BadOrigin);
      r := ApplyResult(player0, player1, winner);
    }

    method ApplyResult(player0: AccountId, player1: AccountId, winner: Winner) returns (r: Result<()>)
      modifies this`auditorMap, this`events
      ensures Agrees(r, Snapshot(), AuditRep.ApplyResult(cfg, old(Snapshot()), player0, player1, winner))
    {
      var _ :- Need(player0 in auditorMap, UnknownAuditor);
      var data0 := auditorMap[player0];
      var _ :- Need(data0.score.Some?, UnapprovedAuditor);
      var _ :- Need(player1 in auditorMap, UnknownAuditor);
      var data1 := auditorMap[player1];
      var _ :- Need(data1.score.Some?, UnapprovedAuditor);
      if !winner.Draw? {
        var (winnerScore, looserScore) :=
          if winner.Player0? then (data0.score.value, data1.score.value) else (data1.score.value, data0.score.value);
        var scores := AuditRep.ELO.Calculate(cfg.pow, winnerScore, looserScore);
        var _ :- Need(scores.Some?, UnexpectedEloOverflow);
        var (winnerNew, looserNew) := scores.value;
        if winner.Player0? {
          data0, data1 := data0.(score := Some(winnerNew)), data1.(score := Some(looserNew));
        } else {
          data0, data1 := data0.(score := Some(looserNew)), data1.(score := Some(winnerNew));
        }
        auditorMap := auditorMap[player0 := data0];
        auditorMap := auditorMap[player1 := data1];
      }
      DepositEvent(Event.GameResult(player0, player1, winner));
      return Ok(());
    }

    function HasEnoughRank(player: AccountId, score: Score): (enough: bool)
      reads this
      ensures enough <==> AuditRep.HasEnoughRank(Snapshot(), player, score)
    {
      if player !in auditorMap then
        false
      else
        match auditorMap[player].score
        case None => false
        case Some(own) => own >= score
    }

    // ----- ExoSys pallet -----

    method RequestReview(origin: Origin, url: seq<Byte>, hash: Hash, bounty: nat, minAuditorScore: Score)
      returns (r: Result<()>)
      modifies this
      ensures Agrees(r, Snapshot(),
                     Dispatcher.Apply(cfg, old(Snapshot()),
                                      Extrinsic(origin, Call.RequestReview(url, hash, bounty, minAuditorScore))))
    {
      var requestor :- EnsureSigned(origin);
      var _ :- Need(hash !in reviews, DuplicateReviewFound);
      var _ :- Reserve(requestor, bounty);
      var _ :- Need(|url| <= MAX_URL_LENGTH, UrlTooLong);
      reviews := reviews[hash := Review(requestor, minAuditorScore, bounty, hash, url)];
      DepositEvent(ReviewRequest(requestor, minAuditorScore, bounty, url, hash));
      return Ok(());
    }

    function AuditReview(origin: Origin, hash: Hash): (r: Result<AccountId>)
      reads this
      ensures !origin.Signed? ==> r == Err(BadOrigin)
      ensures origin.Signed? ==>
        r == match ExoSys.AuditReview(Snapshot(), origin.who, hash)
             case Ok(_) => Ok(origin.who)
             case Err(e) => Err(e)
    {
      var auditor :- EnsureSigned(origin);
      var _ :- Need(hash in reviews, ReviewNotFound);
      var _ :- Need(HasEnoughRank(auditor, reviews[hash].minAuditorScore), NotEnoughReputation);
      Ok(auditor)
    }

    function ReportsOf(hash: Hash): (r: Reports)
      reads this
      ensures r == Snapshot().exo.ReportsOf(hash)
    {
      if hash in reports then reports[hash] else []
    }

    function ChallengesOf(hash: Hash, reportId: ReportId): (r: Challenges)
      reads this
      ensures r == Snapshot().exo.ChallengesOf(hash, reportId)
    {
      if (hash, reportId) in challenges then challenges[(hash, reportId)] else []
    }

    /** The next position in the list, unless the auditor already has a report in it. */
    method NewReportId(auditor: AccountId, hash: Hash) returns (r: Result<ReportId>)
      ensures r.Ok? <==> forall report :: report in ReportsOf(hash) ==> report.auditor != auditor
      ensures r == ExoSys.NewReportId(Snapshot(), auditor, hash)
    {
      var _ :- Need(!ExoSys.HasReportBy(ReportsOf(hash), auditor), DuplicateReportFound);
      return Ok(|ReportsOf(hash)|);
    }

    method TryAppendReport(hash: Hash, report: Report) returns (r: Result<()>)
      modifies this`reports
      ensures Agrees(r, Snapshot(), ExoSys.AppendReport(old(Snapshot()).exo, hash, report)
                                    .Map(e => old(Snapshot()).(exo := e)))
    {
      var _ :- Need(|ReportsOf(hash)| < MAX_REPORTS_PER_REVIEW, TooManyReports);
      reports := reports[hash := ReportsOf(hash) + [report]];
      return Ok(());
    }

    method ReviewInvalid(origin: Origin, hash: Hash) returns (r: Result<()>)
      modifies this
      ensures Agrees(r, Snapshot(), Dispatcher.Apply(cfg, old(Snapshot()), Extrinsic(origin, FileInvalid(hash))))
    {
      var auditor :- AuditReview(origin, hash);
      var reportId :- NewReportId(auditor, hash);
      var _ :- TryAppendReport(hash, Report(auditor, Invalid));
      DepositEvent(Event.ReviewInvalid(hash, reportId, auditor));
      return Ok(());
    }

    method ReviewReport(origin: Origin, hash: Hash, found: Vulnerabilities) returns (r: Result<()>)
      modifies this
      ensures Agrees(r, Snapshot(), Dispatcher.Apply(cfg, old(Snapshot()), Extrinsic(origin, FileReport(hash, found))))
    {
      var auditor :- AuditReview(origin, hash);
      var reportId :- NewReportId(auditor, hash);
      var _ :- TryAppendReport(hash, Report(auditor, Success));
      DepositEvent(ReviewReportCreated(hash, reportId, auditor));
      vulnerabilities := vulnerabilities[(hash, reportId) := found];
      DepositVulnerabilities(hash, reportId, found);
      return Ok(());
    }

    /** One event per vulnerability, in order. */
    method DepositVulnerabilities(hash: Hash, reportId: ReportId, found: Vulnerabilities)
      modifies this`events
      ensures events == old(events) + ExoSys.VulnerabilityEvents(hash, reportId, found)
    {
      ghost var all := ExoSys.VulnerabilityEvents(hash, reportId, found);
      for i := 0 to |found|
        invariant events == old(events) + all[..i]
      {
        DepositEvent(VulnerabilityAdded(hash, reportId, i, found[i]));
      }
    }

    function ReportAuditor(hash: Hash, reportId: ReportId): (r: Result<AccountId>)
      reads this
      ensures r == ExoSys.ReportAuditor(Snapshot().exo, hash, reportId)
    {
      if reportId < |ReportsOf(hash)| then Ok(ReportsOf(hash)[reportId].auditor) else Err(ReportNotFound)
    }

    /** The next position in the list, unless the auditor already has a challenge in it. */
    method NewChallengeId(auditor: AccountId, hash: Hash, reportId: ReportId) returns (r: Result<ChallengeId>)
      ensures r.Ok? <==> forall c :: c in ChallengesOf(hash, reportId) ==> c.auditor != auditor
      ensures r == ExoSys.NewChallengeId(Snapshot(), auditor, hash, reportId)
    {
      var _ :- Need(!ExoSys.HasChallengeBy(ChallengesOf(hash, reportId), auditor), DuplicateChallengeFound);
      return Ok(|ChallengesOf(hash, reportId)|);
    }

    method ChallengeReport(origin: Origin, hash: Hash, reportId: ReportId, demands: Demands) returns (r: Result<()>)
      modifies this
      ensures Agrees(r, Snapshot(),
                     Dispatcher.Apply(cfg, old(Snapshot()),
                                      Extrinsic(origin, Call.ChallengeReport(hash, reportId, demands))))
    {
      var auditor :- AuditReview(origin, hash);
      var reportAuditor :- ReportAuditor(hash, reportId);
      var _ :- Need(reportAuditor != auditor, CannotChallengeSelf);
      var challengeId :- NewChallengeId(auditor, hash, reportId);
      var found := ChallengesOf(hash, reportId);
      var _ :- Need(|found| < MAX_CHALLENGES_PER_REPORT, TooManyChallenges);
      challenges := challenges[(hash, reportId) := found + [Challenge(auditor, Pending, demands)]];
      DepositEvent(ChallengeStarted(hash, reportId, challengeId, auditor));
      return Ok(());
    }

    method ApproveChallenge(origin: Origin, hash: Hash, reportId: ReportId, challengeId: ChallengeId)
      returns (r: Result<()>)
      modifies this
      ensures Agrees(r, Snapshot(),
                     Dispatcher.Apply(cfg, old(Snapshot()),
                                      Extrinsic(origin, Call.CloseChallenge(hash, reportId, challengeId, Approve))))
    {
      var _ :- Need(cfg.mayClose(Approve, origin), BadOrigin);
      var _ :- CloseChallenge(hash, reportId, challengeId, Accepted, Player0);
      DepositEvent(ChallengeAccepted(hash, reportId, challengeId));
      return Ok(());
    }

    method RejectChallenge(origin: Origin, hash: Hash, reportId: ReportId, challengeId: ChallengeId)
      returns (r: Result<()>)
      modifies this
      ensures Agrees(r, Snapshot(),
                     Dispatcher.Apply(cfg, old(Snapshot()),
                                      Extrinsic(origin, Call.CloseChallenge(hash, reportId, challengeId, Reject))))
    {
      var _ :- Need(cfg.mayClose(Reject, origin), BadOrigin);
      var _ :- CloseChallenge(hash, reportId, challengeId, ChallengeState.Rejected, Player1);
      DepositEvent(ChallengeRejected(hash, reportId, challengeId));
      return Ok(());
    }

    method RemoveChallenge(origin: Origin, hash: Hash, reportId: ReportId, challengeId: ChallengeId)
      returns (r: Result<()>)
      modifies this
      ensures Agrees(r, Snapshot(),
                     Dispatcher.Apply(cfg, old(Snapshot()),
                                      Extrinsic(origin, Call.CloseChallenge(hash, reportId, challengeId, Remove))))
    {
      var _ :- Need(cfg.mayClose(Remove, origin), BadOrigin);
      var _ :- CloseChallenge(hash, reportId, challengeId, ChallengeState.Removed, Draw);
      DepositEvent(ChallengeRemoved(hash, reportId, challengeId));
      return Ok(());
    }

    /** Writes the new state first and only then plays the game, which may still fail. */
    method CloseChallenge(hash: Hash, reportId: ReportId, challengeId: ChallengeId, state: ChallengeState,
                          winner: Winner)
      returns (r: Result<()>)
      modifies this`challenges, this`auditorMap, this`events
      ensures Agrees(r, Snapshot(),
                     ExoSys.SetStateAndPlay(cfg, old(Snapshot()), hash, reportId, challengeId, state, winner))
    {
      var reportAuditor :- ReportAuditor(hash, reportId);
      var found := ChallengesOf(hash, reportId);
      var _ :- Need(challengeId < |found|, ChallengeNotFound);
      var challenger := found[challengeId].auditor;
      challenges := challenges[(hash, reportId) := found[challengeId := found[challengeId].(state := state)]];
      r := ApplyResult(challenger, reportAuditor, winner);
    }

    // ----- Dispatch -----

    method Run(x: Extrinsic) returns (r: Result<()>)
      modifies this
      ensures Agrees(r, Snapshot(), Dispatcher.Apply(cfg, old(Snapshot()), x))
    {
      match x.call
      case SignUp(profileHash) => r := SignUp(x.origin, profileHash);
      case UpdateProfile(profileHash) => r := UpdateProfile(x.origin, profileHash);
      case CancelAccount => r := CancelAccount(x.origin);
      case ApproveAuditor(toApprove) => r := ApproveAuditor(x.origin, toApprove);
      case SubmitGame(player0, player1, winner) => r := SubmitGame(x.origin, player0, player1, winner);
      case RequestReview(url, hash, bounty, minScore) => r := RequestReview(x.origin, url, hash, bounty, minScore);
      case FileInvalid(hash) => r := ReviewInvalid(x.origin, hash);
      case FileReport(hash, found) => r := ReviewReport(x.origin, hash, found);
      case ChallengeReport(hash, reportId, demands) => r := ChallengeReport(x.origin, hash, reportId, demands);
      case CloseChallenge(hash, reportId, challengeId, verdict) =>
        match verdict {
          case Approve => r := ApproveChallenge(x.origin, hash, reportId, challengeId);
          case Reject => r := RejectChallenge(x.origin, hash, reportId, challengeId);
          case Remove => r := RemoveChallenge(x.origin, hash, reportId, challengeId);
        }
      case Transfer(to, amount) => r := Transfer(x.origin, to, amount);
    }

    /** Runs one extrinsic in a storage layer: on an error nothing has changed. */
    method Dispatch(x: Extrinsic) returns (r: Result<()>)
      requires Valid()
      modifies this
      ensures Valid() && history == Runs.Extend(old(history), x)
      ensures r.Err? ==> Snapshot() == old(Snapshot())
      ensures Agrees(r, Snapshot(), Dispatcher.Apply(cfg, old(Snapshot()), x))
    {
      var layer := Snapshot();
      ghost var past := history;
      r := Run(x);
      if r.Err? {
        auditorMap, events := layer.auditors, layer.events;
        accounts, issuance := layer.balances.accounts, layer.balances.issuance;
        reviews, reports := layer.exo.reviews, layer.exo.reports;
        vulnerabilities, challenges := layer.exo.vulnerabilities, layer.exo.challenges;
      }
      history := Runs.Extend(past, x);
    }
  }
}
