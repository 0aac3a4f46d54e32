/** Runs: a starting state followed by any sequence of extrinsics, failing ones included, and
    the facts about a run that the theorems speak of.
  */
module Runs {
  import opened Prelude
  import opened Chain
  import Dispatcher

  /** A game as it is passed to `apply_result`; nothing keeps the two players apart. */
  datatype Game = Game(player0: AccountId, player1: AccountId, winner: Winner) {
    /** Winner and looser, if it is not a draw. */
    function Decided(): Option<(AccountId, AccountId)> {
      match winner
      case Player0 => Some((player0, player1))
      case Player1 => Some((player1, player0))
      case Draw => None
    }
  }

  /** The record of an execution: the extrinsics, whether each succeeded, and the states before,
      between and after them. */
  datatype Trace = Trace(cfg: Config, xs: seq<Extrinsic>, oks: seq<bool>, states: seq<State>) {

    predicate Shaped() {
      |oks| == |xs| && |states| == |xs| + 1
    }

    /** Extrinsic n was dispatched in state n, with the recorded outcome and next state. */
    predicate Step(n: nat)
      requires Shaped() && n < |xs|
    {
      && oks[n] == Dispatcher.Apply(cfg, states[n], xs[n]).Ok?
      && states[n + 1] == Dispatcher.Dispatch(cfg, states[n], xs[n])
    }

    ghost predicate Valid() {
      Shaped() && forall n: nat :: n < |xs| ==> Step(n)
    }

    /** The state after the first n extrinsics. */
    function At(n: nat): State
      requires Shaped() && n <= |xs|
    {
      states[n]
    }

    predicate Succeeds(n: nat)
      requires Shaped() && n < |xs|
    {
      oks[n]
    }

    /** Step n is a successful call by that signer. */
    predicate Does(n: nat, who: AccountId, call: Call)
      requires Shaped() && n < |xs|
    {
      Succeeds(n) && xs[n] == Extrinsic(Signed(who), call)
    }

    /** Step n is a successful sign-up of that account, with whatever profile. */
    predicate SignsUp(n: nat, who: AccountId)
      requires Shaped() && n < |xs|
    {
      Succeeds(n) && xs[n].origin == Signed(who) && xs[n].call.SignUp?
    }

    predicate Cancels(n: nat, who: AccountId)
      requires Shaped() && n < |xs|
    {
      Does(n, who, CancelAccount)
    }

    predicate Approves(n: nat, approver: AccountId, approvee: AccountId)
      requires Shaped() && n < |xs|
    {
      Does(n, approver, ApproveAuditor(approvee))
    }

    /** The account still has the entry it was given at genesis. */
    ghost predicate Inherited(n: nat, who: AccountId)
      requires Shaped() && n <= |xs|
    {
      who in At(0).auditors && forall m: nat | m < n :: !Cancels(m, who)
    }

    /** Both ExoSys storage and the event log start empty. */
    predicate StartsEmpty()
      requires Shaped()
    {
      At(0).exo == NO_EXO && At(0).events == []
    }

    /** Step n successfully closes a challenge, which and whose report exist. */
    predicate Closes(n: nat)
      requires Shaped() && n < |xs|
    {
      && Succeeds(n) && xs[n].call.CloseChallenge?
      && xs[n].call.reportId < |At(n).exo.ReportsOf(xs[n].call.hash)|
      && xs[n].call.challengeId < |At(n).exo.ChallengesOf(xs[n].call.hash, xs[n].call.reportId)|
    }

    function ClosedChallenge(n: nat): Challenge
      requires Shaped() && n < |xs| && Closes(n)
    {
      At(n).exo.ChallengesOf(xs[n].call.hash, xs[n].call.reportId)[xs[n].call.challengeId]
    }

    function ClosedReport(n: nat): Report
      requires Shaped() && n < |xs| && Closes(n)
    {
      At(n).exo.ReportsOf(xs[n].call.hash)[xs[n].call.reportId]
    }

    /** The game that step n plays, if any. */
    function Played(n: nat): Option<Game>
      requires Shaped() && n < |xs|
    {
      if Succeeds(n) && xs[n].call.SubmitGame? then
        Some(Game(xs[n].call.player0, xs[n].call.player1, xs[n].call.winner))
      else if Closes(n) then
        Some(Game(ClosedChallenge(n).auditor, ClosedReport(n).auditor, xs[n].call.verdict.Game()))
      else
        None
    }

    /** Winner and looser of step n, if it plays a game that is not a draw. */
    function Decided(n: nat): Option<(AccountId, AccountId)>
      requires Shaped() && n < |xs|
    {
      match Played(n)
      case None => None
      case Some(game) => game.Decided()
    }
  }

  const SOME_CONFIG: Config := Config(0, 0, 0, (_, _) => false, _ => None)
  const SOME_STATE: State := State(map[], Balances(map[], 0), NO_EXO, [])

  type Run = t: Trace | t.Valid() witness Trace(SOME_CONFIG, [], [], [SOME_STATE])

  /** Every sequence of extrinsics makes a run, from every state. */
  function Execute(cfg: Config, s: State, xs: seq<Extrinsic>): (r: Run)
    ensures r.cfg == cfg && r.xs == xs && r.At(0) == s
    decreases |xs|
  {
    if xs == [] then
      var t := Trace(cfg, [], [], [s]);
      assert t.Valid();
      t
    else
      var before := Execute(cfg, s, xs[..|xs| - 1]);
      Extend(before, xs[|xs| - 1])
  }

  function Extend(r: Run, x: Extrinsic): (longer: Run)
    ensures longer.cfg == r.cfg && longer.xs == r.xs + [x]
    ensures forall n: nat :: n <= |r.xs| ==> longer.At(n) == r.At(n)
    ensures longer.At(|r.xs| + 1) == Dispatcher.Dispatch(r.cfg, r.At(|r.xs|), x)
  {
    var last := r.states[|r.xs|];
    var t := Trace(r.cfg, r.xs + [x], r.oks + [Dispatcher.Apply(r.cfg, last, x).Ok?],
                   r.states + [Dispatcher.Dispatch(r.cfg, last, x)]);
    assert t.Valid() by {
      forall n: nat | n < |t.xs|
        ensures t.Step(n)
      {
        assert n < |r.xs| ==> r.Step(n);
      }
    }
    t
  }

  /** What a closing needs is there whenever it succeeds. */
  lemma {:induction false} ClosesIff(r: Run, n: nat)
    requires n < |r.xs|
    ensures r.Closes(n) <==> r.Succeeds(n) && r.xs[n].call.CloseChallenge?
  {
    assert r.Step(n);
  }
}
