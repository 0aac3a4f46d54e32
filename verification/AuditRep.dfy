/** The auditor reputation pallet on values: what each of its calls does to the storage.
    An error stands for "no change at all"; the calls themselves are in class `Node`.
  */
module AuditRep {
  import opened Prelude
  import opened Chain
  import Currency
  import Elo

  const ELO: Elo.EloRank := Elo.EloRank(32)

  /** Genesis entries are inserted in order, so that the last one for an account wins. */
  function BuildGenesis(entries: seq<(AccountId, AuditorData)>): map<AccountId, AuditorData> {
    if entries == [] then
      map[]
    else
      var last := entries[|entries| - 1];
      BuildGenesis(entries[..|entries| - 1])[last.0 := last.1]
  }

  /** An account has a genesis entry iff it is listed, and it is the last one listed for it. */
  lemma {:induction false} GenesisEntry(entries: seq<(AccountId, AuditorData)>, a: AccountId)
    ensures a in BuildGenesis(entries) <==> exists i :: 0 <= i < |entries| && entries[i].0 == a
    ensures a in BuildGenesis(entries) ==> exists i ::
      && 0 <= i < |entries| && entries[i] == (a, BuildGenesis(entries)[a])
      && forall j :: i < j < |entries| ==> entries[j].0 != a
  {
    if entries != [] {
      var n := |entries| - 1;
      GenesisEntry(entries[..n], a);
      if entries[n].0 != a && a in BuildGenesis(entries) {
        var i :| 0 <= i < n && entries[..n][i] == (a, BuildGenesis(entries)[a])
              && forall j :: i < j < n ==> entries[..n][j].0 != a;
        assert entries[i] == (a, BuildGenesis(entries)[a]);
      }
    }
  }

  function SignUp(cfg: Config, s: State, sender: AccountId, profileHash: Hash): Result<State> {
    var _ :- Need(sender !in s.auditors, AlreadySignedUp);
    var balances :- Currency.Reserve(s.balances, sender, cfg.minAuditorStake);
    Ok(s.(balances := balances,
          auditors := s.auditors[sender := AuditorData(None, profileHash, [])],
          events := s.events + [SignedUp(sender)]))
  }

  function UpdateProfile(s: State, sender: AccountId, profileHash: Hash): Result<State> {
    var _ :- Need(sender in s.auditors, UnknownAuditor);
    Ok(s.(auditors := s.auditors[sender := s.auditors[sender].(profileHash := profileHash)]))
  }

  function CancelAccount(cfg: Config, s: State, sender: AccountId): Result<State> {
    var _ :- Need(sender in s.auditors, UnknownAuditor);
    var returned := Currency.Unreserve(s.balances, sender, cfg.minAuditorStake);
    var score := s.auditors[sender].score;
    var balances :- if score.Some? && score.value < cfg.initialAuditorScore
                    then Currency.Burn(returned, sender, cfg.minAuditorStake)
                    else Ok(returned);
    Ok(s.(balances := balances, auditors := s.auditors - {sender}))
  }

  function ApproveAuditor(cfg: Config, s: State, sender: AccountId, toApprove: AccountId): Result<State> {
    var _ :- Need(sender in s.auditors, UnknownAuditor);
    var senderScore := s.auditors[sender].score;
    var _ :- Need(senderScore.Some?, UnapprovedAuditor);
    var _ :- Need(senderScore.value >= cfg.minimalApproverScore, ReputationTooLow);
    var _ :- Need(toApprove in s.auditors, UnknownApprovee);
    var data := s.auditors[toApprove];
    var _ :- Need(data.score.None?, AlreadyAuditor);
    var _ :- Need(sender !in data.approvedBy, AlreadyApproved);
    var _ :- Need(|data.approvedBy| < MAX_APPROVALS, StorageOverflow);
    var approvedBy := data.approvedBy + [sender];
    var score := if |approvedBy| == 3 then Some(cfg.initialAuditorScore) else None;
    Ok(s.(auditors := s.auditors[toApprove := AuditorData(score, data.profileHash, approvedBy)]))
  }

  /** The new scores of player 0 and player 1. */
  function Scores(cfg: Config, score0: Score, score1: Score, winner: Winner): Option<(Score, Score)> {
    match winner
    case Draw => Some((score0, score1))
    case Player0 => ELO.Calculate(cfg.pow, score0, score1)
    case Player1 =>
      match ELO.Calculate(cfg.pow, score1, score0)
      case None => None
      case Some((newWinner, newLooser)) => Some((newLooser, newWinner))
  }

  function ApplyResult(cfg: Config, s: State, player0: AccountId, player1: AccountId, winner: Winner)
    : Result<State>
  {
    var _ :- Need(player0 in s.auditors, UnknownAuditor);
    var data0 := s.auditors[player0];
    var _ :- Need(data0.score.Some?, UnapprovedAuditor);
    var _ :- Need(player1 in s.auditors, UnknownAuditor);
    var data1 := s.auditors[player1];
    var _ :- Need(data1.score.Some?, UnapprovedAuditor);
    var scores := Scores(cfg, data0.score.value, data1.score.value, winner);
    var _ :- Need(scores.Some?, UnexpectedEloOverflow);
    var auditors := if winner.Draw? then s.auditors else
        s.auditors[player0 := data0.(score := Some(scores.value.0))]
                  [player1 := data1.(score := Some(scores.value.1))];
    Ok(s.(auditors := auditors, events := s.events + [Event.GameResult(player0, player1, winner)]))
  }

  predicate HasEnoughRank(s: State, player: AccountId, score: Score) {
    s.ScoreOf(player).Some? && s.ScoreOf(player).value >= score
  }
}
