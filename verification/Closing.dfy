/** Closing a challenge: who plays, exactly when it succeeds, and exactly what it changes. */
module Closing {
  import opened Prelude
  import opened Chain
  import opened Effects
  import opened Ledgers
  import opened Runs
  import AuditRep
  import Dispatcher
  import EloProofs
  import ExoSys

  /** Every game that closing a challenge plays is between two distinct accounts: what was
      checked when the challenge was filed still holds at every later close. */
  lemma {:induction false} DistinctPlayers(r: Run, n: nat)
    requires n < |r.xs| && r.StartsEmpty()
    requires r.Closes(n)
    ensures r.ClosedChallenge(n).auditor != r.ClosedReport(n).auditor
  {
    var call := r.xs[n].call;
    LedgerInvariant(r, n);
    assert ChallengesConsistent(r.At(n).exo, call.hash, call.reportId);
  }

  /** The Elo step works out, if the verdict asks for one: both powers of ten exist. */
  predicate EloWorks(cfg: Config, s: State, winner: AccountId, looser: AccountId)
    requires s.ScoreOf(winner).Some? && s.ScoreOf(looser).Some?
  {
    EloProofs.PowersExist(cfg.pow, s.ScoreOf(winner).value, s.ScoreOf(looser).value)
  }

  /** The challenge exists, the origin may close it so, both parties have scores now. Whether
      the challenge is still pending does not matter. */
  predicate Closable(cfg: Config, s: State, origin: Origin, hash: Hash, reportId: ReportId,
                     challengeId: ChallengeId, verdict: Verdict)
  {
    && cfg.mayClose(verdict, origin)
    && reportId < |s.exo.ReportsOf(hash)|
    && challengeId < |s.exo.ChallengesOf(hash, reportId)|
    && var challenger := s.exo.ChallengesOf(hash, reportId)[challengeId].auditor;
    && var author := s.exo.ReportsOf(hash)[reportId].auditor;
    && s.ScoreOf(challenger).Some?
    && s.ScoreOf(author).Some?
    && match verdict
       case Approve => EloWorks(cfg, s, challenger, author)
       case Reject => EloWorks(cfg, s, author, challenger)
       case Remove => true
  }

  /** Only the state of that one challenge differs. */
  ghost predicate OnlyThisChallenge(s: Exo, t: Exo, hash: Hash, reportId: ReportId, challengeId: ChallengeId,
                                    state: ChallengeState)
    requires challengeId < |s.ChallengesOf(hash, reportId)|
  {
    var before, after := s.ChallengesOf(hash, reportId), t.ChallengesOf(hash, reportId);
    && t.reviews == s.reviews && t.reports == s.reports && t.vulnerabilities == s.vulnerabilities
    && (forall key :: key != (hash, reportId) ==> t.ChallengesOf(key.0, key.1) == s.ChallengesOf(key.0, key.1))
    && |after| == |before|
    && (forall i :: 0 <= i < |before| && i != challengeId ==> after[i] == before[i])
    && after[challengeId] == Challenge(before[challengeId].auditor, state, before[challengeId].demands)
  }

  /** Only the scores of winner and looser differ; they are the ones the Elo step gives. */
  ghost predicate OnlyTheseScores(cfg: Config, s: State, t: State, winner: AccountId, looser: AccountId)
    requires winner in s.auditors && looser in s.auditors
  {
    && NewScores(cfg, s, winner, looser).Some?
    && t.auditors.Keys == s.auditors.Keys
    && (forall a :: a in s.auditors && a != winner && a != looser ==> t.auditors[a] == s.auditors[a])
    && t.auditors[winner] == s.auditors[winner].(score := Some(NewScores(cfg, s, winner, looser).value.0))
    && t.auditors[looser] == s.auditors[looser].(score := Some(NewScores(cfg, s, winner, looser).value.1))
  }

  /** What a game needs and does, in terms of winner and looser. */
  lemma {:induction false} PlayExactly(cfg: Config, s: State, player0: AccountId, player1: AccountId, winner: Winner)
    requires player0 != player1
    ensures
      var result := AuditRep.ApplyResult(cfg, s, player0, player1, winner);
      && (result.Ok? <==>
            && s.ScoreOf(player0).Some? && s.ScoreOf(player1).Some?
            && match Game(player0, player1, winner).Decided()
               case None => true
               case Some((w, l)) => NewScores(cfg, s, w, l).Some?)
      && (result.Ok? ==>
            var t := result.value;
            && t.exo == s.exo && t.balances == s.balances
            && t.events == s.events + [Event.GameResult(player0, player1, winner)]
            && match Game(player0, player1, winner).Decided()
               case None => t.auditors == s.auditors
               case Some((w, l)) => OnlyTheseScores(cfg, s, t, w, l))
  {
  }

  /** From s to t exactly this happened: the challenge got the state of the verdict, winner and
      looser got their new scores (nobody on a removal), and two events were deposited. */
  ghost predicate ClosedExactly(cfg: Config, s: State, t: State, hash: Hash, reportId: ReportId,
                                challengeId: ChallengeId, verdict: Verdict)
    requires reportId < |s.exo.ReportsOf(hash)| && challengeId < |s.exo.ChallengesOf(hash, reportId)|
    requires s.exo.ChallengesOf(hash, reportId)[challengeId].auditor in s.auditors
    requires s.exo.ReportsOf(hash)[reportId].auditor in s.auditors
  {
    var challenger := s.exo.ChallengesOf(hash, reportId)[challengeId].auditor;
    var author := s.exo.ReportsOf(hash)[reportId].auditor;
    && t.balances == s.balances
    && match verdict
       case Approve =>
         && OnlyThisChallenge(s.exo, t.exo, hash, reportId, challengeId, Accepted)
         && OnlyTheseScores(cfg, s, t, challenger, author)
         && t.events == s.events + [Event.GameResult(challenger, author, Player0),
                                    ChallengeAccepted(hash, reportId, challengeId)]
       case Reject =>
         && OnlyThisChallenge(s.exo, t.exo, hash, reportId, challengeId, ChallengeState.Rejected)
         && OnlyTheseScores(cfg, s, t, author, challenger)
         && t.events == s.events + [Event.GameResult(challenger, author, Player1),
                                    ChallengeRejected(hash, reportId, challengeId)]
       case Remove =>
         && OnlyThisChallenge(s.exo, t.exo, hash, reportId, challengeId, ChallengeState.Removed)
         && t.auditors == s.auditors
         && t.events == s.events + [Event.GameResult(challenger, author, Draw),
                                    ChallengeRemoved(hash, reportId, challengeId)]
  }

  lemma {:induction false} StateIsSet(s: Exo, hash: Hash, reportId: ReportId, challengeId: ChallengeId,
                                      state: ChallengeState)
    requires challengeId < |s.ChallengesOf(hash, reportId)|
    ensures OnlyThisChallenge(s, ExoSys.SetChallengeState(s, hash, reportId, challengeId, state),
                              hash, reportId, challengeId, state)
  {
  }

  lemma {:induction false} CloseFound(cfg: Config, s: State, hash: Hash, reportId: ReportId,
                                      challengeId: ChallengeId, verdict: Verdict, origin: Origin)
    requires reportId < |s.exo.ReportsOf(hash)| && challengeId < |s.exo.ChallengesOf(hash, reportId)|
    requires s.exo.ChallengesOf(hash, reportId)[challengeId].auditor != s.exo.ReportsOf(hash)[reportId].auditor
    requires cfg.mayClose(verdict, origin)
    ensures
      var result := ExoSys.CloseChallenge(cfg, s, hash, reportId, challengeId, verdict);
      && (result.Ok? <==> Closable(cfg, s, origin, hash, reportId, challengeId, verdict))
      && (result.Ok? ==> ClosedExactly(cfg, s, result.value, hash, reportId, challengeId, verdict))
  {
    var challenger := s.exo.ChallengesOf(hash, reportId)[challengeId].auditor;
    var author := s.exo.ReportsOf(hash)[reportId].auditor;
    var exo := ExoSys.SetChallengeState(s.exo, hash, reportId, challengeId, verdict.State());
    StateIsSet(s.exo, hash, reportId, challengeId, verdict.State());
    PlayExactly(cfg, s.(exo := exo), challenger, author, verdict.Game());
    var result := ExoSys.CloseChallenge(cfg, s, hash, reportId, challengeId, verdict);
    if result.Ok? {
      assert result.value.exo == exo;
    }
  }

  lemma {:induction false} CloseRefused(cfg: Config, s: State, hash: Hash, reportId: ReportId,
                                        challengeId: ChallengeId, verdict: Verdict, origin: Origin)
    requires reportId >= |s.exo.ReportsOf(hash)| || challengeId >= |s.exo.ChallengesOf(hash, reportId)|
          || !cfg.mayClose(verdict, origin)
    ensures !Closable(cfg, s, origin, hash, reportId, challengeId, verdict)
    ensures Dispatcher.Apply(cfg, s, Extrinsic(origin, CloseChallenge(hash, reportId, challengeId, verdict))).Err?
  {
  }

  /** The outcome of a closing: success iff closable, then exactly the promised changes, else none. */
  ghost predicate ExactOutcome(cfg: Config, s: State, origin: Origin, hash: Hash, reportId: ReportId,
                               challengeId: ChallengeId, verdict: Verdict)
  {
    var x := Extrinsic(origin, CloseChallenge(hash, reportId, challengeId, verdict));
    var t := Dispatcher.Dispatch(cfg, s, x);
    && (Dispatcher.Apply(cfg, s, x).Ok? <==> Closable(cfg, s, origin, hash, reportId, challengeId, verdict))
    && if Closable(cfg, s, origin, hash, reportId, challengeId, verdict)
       then ClosedExactly(cfg, s, t, hash, reportId, challengeId, verdict)
       else t == s
  }

  /** In every reachable state: closing succeeds iff the challenge is closable. Then exactly the
      state of this challenge and the two scores change; otherwise nothing at all changes,
      although the new state of the challenge is written before the game can fail. */
  lemma {:induction false} CloseExactly(r: Run, n: nat, origin: Origin, hash: Hash, reportId: ReportId,
                                        challengeId: ChallengeId, verdict: Verdict)
    requires n <= |r.xs| && r.StartsEmpty()
    ensures ExactOutcome(r.cfg, r.At(n), origin, hash, reportId, challengeId, verdict)
  {
    var s := r.At(n);
    LedgerInvariant(r, n);
    assert ChallengesConsistent(s.exo, hash, reportId);
    if && reportId < |s.exo.ReportsOf(hash)| && challengeId < |s.exo.ChallengesOf(hash, reportId)|
       && r.cfg.mayClose(verdict, origin)
    {
      CloseAllowed(r.cfg, s, hash, reportId, challengeId, verdict, origin);
    } else {
      CloseRefused(r.cfg, s, hash, reportId, challengeId, verdict, origin);
    }
  }

  lemma {:induction false} CloseAllowed(cfg: Config, s: State, hash: Hash, reportId: ReportId,
                                        challengeId: ChallengeId, verdict: Verdict, origin: Origin)
    requires reportId < |s.exo.ReportsOf(hash)| && challengeId < |s.exo.ChallengesOf(hash, reportId)|
    requires s.exo.ChallengesOf(hash, reportId)[challengeId].auditor != s.exo.ReportsOf(hash)[reportId].auditor
    requires cfg.mayClose(verdict, origin)
    ensures ExactOutcome(cfg, s, origin, hash, reportId, challengeId, verdict)
  {
    CloseFound(cfg, s, hash, reportId, challengeId, verdict, origin);
  }

  /** Nothing makes a closing final: after any closing, with a power function that is defined
      everywhere, the same origin may close the challenge again with any verdict it is entitled to,
      and the game is played again. */
  lemma {:induction false} ClosableAgain(cfg: Config, s: State, t: State, hash: Hash, reportId: ReportId,
                                         challengeId: ChallengeId, first: Verdict, origin: Origin, again: Verdict)
    requires Closable(cfg, s, origin, hash, reportId, challengeId, first)
    requires ClosedExactly(cfg, s, t, hash, reportId, challengeId, first)
    requires cfg.mayClose(again, origin) && forall e :: cfg.pow(e).Some?
    ensures Closable(cfg, t, origin, hash, reportId, challengeId, again)
  {
  }
}
