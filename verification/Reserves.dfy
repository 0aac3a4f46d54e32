/** The one unnamed reserve per account that both pallets use, and the money in circulation. */
module Reserves {
  import opened Prelude
  import opened Chain
  import opened Effects
  import opened MapSums
  import opened Runs
  import AuditRep
  import Currency
  import Dispatcher

  function BountyFor(requestor: AccountId): Review -> int {
    (review: Review) => if review.requestor == requestor then review.bounty else 0
  }

  /** The bounties of all reviews that an account requested. */
  ghost function Bounties(s: State, who: AccountId): int {
    Sum(s.exo.reviews, BountyFor(who))
  }

  function Reserved(s: State, who: AccountId): nat {
    s.balances.Of(who).reserved
  }

  /** The stake of an account that signed up in the run; genesis entries carry no stake. */
  ghost function Stake(r: Run, n: nat, who: AccountId): nat
    requires n <= |r.xs|
  {
    if who in r.At(n).auditors && !r.Inherited(n, who) then r.cfg.minAuditorStake else 0
  }

  /** What the cancellation of a genesis entry took out of the reserve, although no stake was
      ever put in: part of the account's own bounties. */
  ghost function Drained(r: Run, n: nat, who: AccountId): nat
    requires n <= |r.xs|
  {
    if n == 0 then 0
    else if r.Inherited(n - 1, who) && r.Cancels(n - 1, who) then
      Min(Reserved(r.At(n - 1), who), r.cfg.minAuditorStake)
    else Drained(r, n - 1, who)
  }

  // ----- One step -----

  /** How one step changes the reserve and the bounties of one account. */
  lemma {:induction false} ReserveStep(r: Run, n: nat, who: AccountId)
    requires n < |r.xs|
    ensures
      var s, t := r.At(n), r.At(n + 1);
      && Bounties(s, who) <= Bounties(t, who)
      && Reserved(t, who) - Reserved(s, who) ==
           Bounties(t, who) - Bounties(s, who)
           + (if r.SignsUp(n, who) then r.cfg.minAuditorStake else 0)
           - (if r.Cancels(n, who) then Min(Reserved(s, who), r.cfg.minAuditorStake) else 0)
  {
    assert r.Step(n);
    if !Dispatcher.NeedsSignature(r.xs[n].call) {
      GameFrame(r.cfg, r.At(n), r.xs[n]);
    } else if r.Succeeds(n) {
      if r.xs[n].call.RequestReview? {
        RequestStep(r, n, who);
      } else {
        MoneyStep(r.cfg, r.At(n), r.xs[n].origin.who, r.xs[n].call, who);
      }
    }
  }

  lemma {:induction false} MoneyStep(cfg: Config, s: State, signer: AccountId, call: Call, who: AccountId)
    requires Dispatcher.NeedsSignature(call) && !call.RequestReview?
    requires Dispatcher.ApplySigned(cfg, s, signer, call).Ok?
    ensures
      var t := Dispatcher.ApplySigned(cfg, s, signer, call).value;
      && t.exo.reviews == s.exo.reviews
      && Reserved(t, who) - Reserved(s, who) ==
           (if call.SignUp? && signer == who then cfg.minAuditorStake else 0)
           - (if call.CancelAccount? && signer == who then Min(Reserved(s, who), cfg.minAuditorStake) else 0)
  {
  }

  lemma {:induction false} RequestStep(r: Run, n: nat, who: AccountId)
    requires n < |r.xs| && r.Succeeds(n) && r.xs[n].call.RequestReview?
    ensures Reserved(r.At(n + 1), who) - Reserved(r.At(n), who)
         == Bounties(r.At(n + 1), who) - Bounties(r.At(n), who) >= 0
  {
    assert r.Step(n);
    var call := r.xs[n].call;
    var review := Review(r.xs[n].origin.who, call.minAuditorScore, call.bounty, call.hash, call.url);
    assert r.At(n + 1).exo.reviews == r.At(n).exo.reviews[call.hash := review];
    SumUpdate(r.At(n).exo.reviews, call.hash, review, BountyFor(who));
  }

  lemma {:induction false} InheritedPresent(r: Run, n: nat, who: AccountId)
    requires n <= |r.xs| && r.Inherited(n, who)
    ensures who in r.At(n).auditors
  {
    if n > 0 {
      StandingStep(r, n - 1, who);
      InheritedPresent(r, n - 1, who);
    }
  }

  /** How one step changes the stake of one account and what was drained from it. */
  lemma {:induction false} StakeStep(r: Run, n: nat, who: AccountId)
    requires n < |r.xs|
    ensures
      var full := r.cfg.minAuditorStake;
      var drain := Drained(r, n + 1, who) - Drained(r, n, who);
      if r.SignsUp(n, who) then Stake(r, n, who) == 0 && Stake(r, n + 1, who) == full && drain == 0
      else if !r.Cancels(n, who) then Stake(r, n + 1, who) == Stake(r, n, who) && drain == 0
      else if !r.Inherited(n, who) then Stake(r, n, who) == full && Stake(r, n + 1, who) == 0 && drain == 0
      else Stake(r, n, who) == Stake(r, n + 1, who) == 0
           && Drained(r, n + 1, who) == Min(Reserved(r.At(n), who), full)
    ensures r.Inherited(n + 1, who) ==> r.Inherited(n, who) && !r.Cancels(n, who)
  {
    StandingStep(r, n, who);
    EffectCauses(r, n, who);
    if r.Inherited(n, who) {
      InheritedPresent(r, n, who);
    }
  }

  // ----- The reserve over runs -----

  /** One step keeps the balance of these four; and it drains only a genesis entry. */
  lemma {:induction false} SharedReserveStep(r: Run, n: nat, who: AccountId)
    requires n < |r.xs|
    requires Drained(r, n, who) <= Reserved(r.At(0), who) + Bounties(r.At(n), who)
    requires Reserved(r.At(n), who)
          == Reserved(r.At(0), who) + Stake(r, n, who) + Bounties(r.At(n), who) - Drained(r, n, who)
    requires r.Inherited(n, who) ==> Drained(r, n, who) == 0
    ensures Reserved(r.At(n + 1), who)
         == Reserved(r.At(0), who) + Stake(r, n + 1, who) + Bounties(r.At(n + 1), who) - Drained(r, n + 1, who)
    ensures Drained(r, n + 1, who) <= Reserved(r.At(0), who) + Bounties(r.At(n + 1), who)
    ensures Drained(r, n + 1, who) != Drained(r, n, who) ==>
      r.Inherited(n, who) && !r.Inherited(n + 1, who) && Drained(r, n + 1, who) <= r.cfg.minAuditorStake
  {
    ReserveStep(r, n, who);
    StakeStep(r, n, who);
  }

  /** In every reachable state the reserve of every account is what it started with, plus its
      stake, plus all its bounties, minus what the cancellation of a genesis entry drained.
      Nothing is ever drained from an account that is not listed at genesis. */
  lemma {:induction false} SharedReserve(r: Run, n: nat, who: AccountId)
    requires n <= |r.xs| && r.StartsEmpty()
    ensures Reserved(r.At(n), who)
         == Reserved(r.At(0), who) + Stake(r, n, who) + Bounties(r.At(n), who) - Drained(r, n, who)
    ensures Drained(r, n, who) <= Reserved(r.At(0), who) + Bounties(r.At(n), who)
    ensures Drained(r, n, who) <= r.cfg.minAuditorStake
    ensures who !in r.At(0).auditors || r.Inherited(n, who) ==> Drained(r, n, who) == 0
  {
    if n > 0 {
      SharedReserve(r, n - 1, who);
      SharedReserveStep(r, n - 1, who);
    }
  }

  /** The reserve that anyone would expect: what it was, the stake, and all bounties. */
  ghost predicate PlainReserve(r: Run, n: nat, who: AccountId)
    requires n <= |r.xs|
  {
    Reserved(r.At(n), who) == Reserved(r.At(0), who) + Stake(r, n, who) + Bounties(r.At(n), who)
  }

  /** In step n a genesis entry is cancelled while a part of a stake could be taken. */
  ghost predicate Drains(r: Run, n: nat, who: AccountId)
    requires n < |r.xs|
  {
    r.Inherited(n, who) && r.Cancels(n, who) && Reserved(r.At(n), who) > 0 && r.cfg.minAuditorStake > 0
  }

  /** Exactly when the reserve is the plain one: no genesis auditor of that account cancelled
      while it had anything reserved, or the stake is zero. */
  lemma {:induction false} PlainReserveIff(r: Run, n: nat, who: AccountId)
    requires n <= |r.xs| && r.StartsEmpty()
    ensures PlainReserve(r, n, who) <==> forall m: nat :: m < n ==> !Drains(r, m, who)
  {
    SharedReserve(r, n, who);
    DrainedIff(r, n, who);
  }

  lemma {:induction false} DrainedIff(r: Run, n: nat, who: AccountId)
    requires n <= |r.xs|
    ensures Drained(r, n, who) == 0 <==> forall m: nat :: m < n ==> !Drains(r, m, who)
  {
    if n > 0 {
      DrainedIff(r, n - 1, who);
      assert Drains(r, n - 1, who) ==> r.Inherited(n - 1, who) && Drained(r, n, who) > 0;
    }
  }

  /** An input for which it is not: a genesis auditor without any reserve requests a review, cancels,
      and so takes back up to one stake of the bounty that the review still promises. */
  lemma {:induction false} BountyDrained(cfg: Config, s: State, who: AccountId, url: Url, hash: Hash,
                                         bounty: nat, minAuditorScore: Score)
    requires s.exo == NO_EXO && s.events == []
    requires who in s.auditors && !Burns(cfg, s, who)
    requires Reserved(s, who) == 0 && s.balances.Of(who).free >= bounty
    ensures
      var xs := [Extrinsic(Signed(who), RequestReview(url, hash, bounty, minAuditorScore)),
                 Extrinsic(Signed(who), CancelAccount)];
      var r := Execute(cfg, s, xs);
      && Bounties(r.At(2), who) == bounty
      && Reserved(r.At(2), who) == bounty - Min(bounty, cfg.minAuditorStake)
      && (PlainReserve(r, 2, who) <==> bounty == 0 || cfg.minAuditorStake == 0)
  {
    var xs := [Extrinsic(Signed(who), RequestReview(url, hash, bounty, minAuditorScore)),
               Extrinsic(Signed(who), CancelAccount)];
    var r := Execute(cfg, s, xs);
    DrainingRun(r, who, url, hash, bounty, minAuditorScore);
  }

  lemma {:induction false} FirstRequest(cfg: Config, s: State, who: AccountId, url: Url, hash: Hash,
                                        bounty: nat, minAuditorScore: Score)
    requires s.exo == NO_EXO && s.balances.Of(who).free >= bounty
    ensures Dispatcher.Apply(cfg, s, Extrinsic(Signed(who), RequestReview(url, hash, bounty, minAuditorScore))).Ok?
    ensures
      var x := Extrinsic(Signed(who), RequestReview(url, hash, bounty, minAuditorScore));
      Dispatcher.Dispatch(cfg, s, x).exo.reviews == map[hash := Review(who, minAuditorScore, bounty, hash, url)]
    ensures Bounties(s, who) == 0
  {
  }

  lemma {:induction false} DrainingRun(r: Run, who: AccountId, url: Url, hash: Hash, bounty: nat,
                                       minAuditorScore: Score)
    requires r.StartsEmpty()
    requires who in r.At(0).auditors && !Burns(r.cfg, r.At(0), who)
    requires Reserved(r.At(0), who) == 0 && r.At(0).balances.Of(who).free >= bounty
    requires r.xs == [Extrinsic(Signed(who), RequestReview(url, hash, bounty, minAuditorScore)),
                      Extrinsic(Signed(who), CancelAccount)]
    ensures Bounties(r.At(2), who) == bounty
    ensures Reserved(r.At(2), who) == bounty - Min(bounty, r.cfg.minAuditorStake)
    ensures Stake(r, 2, who) == 0
  {
    FirstRequest(r.cfg, r.At(0), who, url, hash, bounty, minAuditorScore);
    assert r.Step(0);
    RequestStep(r, 0, who);
    StandingStep(r, 0, who);
    DrainingCancel(r, who);
  }

  lemma {:induction false} DrainingCancel(r: Run, who: AccountId)
    requires |r.xs| == 2 && r.xs[1] == Extrinsic(Signed(who), CancelAccount)
    requires r.Inherited(1, who) && who in r.At(1).auditors && !Burns(r.cfg, r.At(1), who)
    ensures Bounties(r.At(2), who) == Bounties(r.At(1), who)
    ensures Reserved(r.At(2), who) == Reserved(r.At(1), who) - Min(Reserved(r.At(1), who), r.cfg.minAuditorStake)
    ensures Stake(r, 2, who) == 0
  {
    CancelSucceedsIff(r.cfg, r.At(1), who);
    assert r.Step(1);
    MoneyStep(r.cfg, r.At(1), who, CancelAccount, who);
    StakeStep(r, 1, who);
  }

  // ----- Cancellation -----

  /** An approved auditor whose score has dropped below the initial one loses the stake. */
  predicate Burns(cfg: Config, s: State, who: AccountId) {
    s.ScoreOf(who).Some? && s.ScoreOf(who).value < cfg.initialAuditorScore
  }

  /** Exactly when a cancellation succeeds, in any state. */
  lemma {:induction false} CancelSucceedsIff(cfg: Config, s: State, who: AccountId)
    ensures Dispatcher.Apply(cfg, s, Extrinsic(Signed(who), CancelAccount)).Ok? <==>
      && who in s.auditors
      && (Burns(cfg, s, who) ==> s.balances.Of(who).free + s.balances.Of(who).reserved >= cfg.minAuditorStake)
  {
  }

  /** An auditor who signed up in the run can always cancel. All bounties stay reserved; the
      stake is returned, or burnt if the score is below the initial one; nothing else changes. */
  lemma {:induction false} CancelIsTotal(r: Run, n: nat, who: AccountId)
    requires n <= |r.xs| && r.StartsEmpty()
    requires who in r.At(n).auditors && !r.Inherited(n, who)
    ensures
      var s, stake := r.At(n), r.cfg.minAuditorStake;
      var result := Dispatcher.Apply(r.cfg, s, Extrinsic(Signed(who), CancelAccount));
      var burnt := if Burns(r.cfg, s, who) then stake else 0;
      && result.Ok?
      && var t := result.value;
      && t.auditors == s.auditors - {who}
      && t.exo == s.exo && t.events == s.events
      && Reserved(t, who) == Reserved(r.At(0), who) + Bounties(s, who) - Drained(r, n, who)
      && t.balances.Of(who).free == s.balances.Of(who).free + stake - burnt
      && t.balances.issuance == s.balances.issuance - burnt
      && forall other :: other != who ==> t.balances.Of(other) == s.balances.Of(other)
  {
    SharedReserve(r, n, who);
    CancelSucceedsIff(r.cfg, r.At(n), who);
  }

  // ----- Money in circulation -----

  /** Step n is the cancellation of an account whose stake is burnt. */
  predicate BurnsAt(r: Run, n: nat)
    requires n < |r.xs|
  {
    && r.Succeeds(n) && r.xs[n].call.CancelAccount?
    && r.xs[n].origin.Signed? && Burns(r.cfg, r.At(n), r.xs[n].origin.who)
  }

  /** The stake, once for each burning cancellation in the first n steps. */
  function Burnt(r: Run, n: nat): nat
    requires n <= |r.xs|
  {
    if n == 0 then 0 else Burnt(r, n - 1) + (if BurnsAt(r, n - 1) then r.cfg.minAuditorStake else 0)
  }

  function Total(): Account -> int {
    (account: Account) => account.free + account.reserved
  }

  /** Everything that all accounts hold. */
  ghost function Held(b: Balances): int {
    Sum(b.accounts, Total())
  }

  /** From b to c an amount left circulation, as far as the accounts and as far as the record go. */
  ghost predicate Shrinks(b: Balances, c: Balances, amount: int) {
    Held(c) == Held(b) - amount && c.issuance == b.issuance - amount
  }

  lemma {:induction false} ReserveKeeps(b: Balances, who: AccountId, amount: nat)
    requires Currency.Reserve(b, who, amount).Ok?
    ensures Shrinks(b, Currency.Reserve(b, who, amount).value, 0)
  {
    var account := b.Of(who);
    if amount > 0 {
      SumUpdate(b.accounts, who, Account(account.free - amount, account.reserved + amount), Total());
    }
  }

  lemma {:induction false} UnreserveKeeps(b: Balances, who: AccountId, amount: nat)
    ensures Shrinks(b, Currency.Unreserve(b, who, amount), 0)
  {
    SumUpdate(b.accounts, who, Currency.Unreserve(b, who, amount).Of(who), Total());
  }

  lemma {:induction false} BurnLoses(b: Balances, who: AccountId, amount: nat)
    requires Currency.Burn(b, who, amount).Ok?
    ensures Shrinks(b, Currency.Burn(b, who, amount).value, amount)
  {
    SumUpdate(b.accounts, who, Currency.Burn(b, who, amount).value.Of(who), Total());
  }

  lemma {:induction false} TransferKeeps(b: Balances, from: AccountId, to: AccountId, amount: nat)
    requires Currency.Transfer(b, from, to, amount).Ok?
    ensures Shrinks(b, Currency.Transfer(b, from, to, amount).value, 0)
  {
    var source := b.Of(from);
    var debited := b.(accounts := b.accounts[from := source.(free := source.free - amount)]);
    SumUpdate(b.accounts, from, source.(free := source.free - amount), Total());
    var target := debited.Of(to);
    SumUpdate(debited.accounts, to, target.(free := target.free + amount), Total());
  }

  lemma {:induction false} CancelLoses(cfg: Config, s: State, who: AccountId)
    requires AuditRep.CancelAccount(cfg, s, who).Ok?
    ensures Shrinks(s.balances, AuditRep.CancelAccount(cfg, s, who).value.balances,
                 if Burns(cfg, s, who) then cfg.minAuditorStake else 0)
  {
    UnreserveKeeps(s.balances, who, cfg.minAuditorStake);
    if Burns(cfg, s, who) {
      BurnLoses(Currency.Unreserve(s.balances, who, cfg.minAuditorStake), who, cfg.minAuditorStake);
    }
  }

  lemma {:induction false} CirculationStep(r: Run, n: nat)
    requires n < |r.xs|
    ensures Shrinks(r.At(n).balances, r.At(n + 1).balances, if BurnsAt(r, n) then r.cfg.minAuditorStake else 0)
  {
    var b, x := r.At(n).balances, r.xs[n];
    assert r.Step(n);
    if !Dispatcher.NeedsSignature(x.call) {
      GameFrame(r.cfg, r.At(n), x);
    } else if r.Succeeds(n) {
      match x.call
      case SignUp(_) => ReserveKeeps(b, x.origin.who, r.cfg.minAuditorStake);
      case RequestReview(_, _, bounty, _) => ReserveKeeps(b, x.origin.who, bounty);
      case Transfer(to, amount) => TransferKeeps(b, x.origin.who, to, amount);
      case CancelAccount => CancelLoses(r.cfg, r.At(n), x.origin.who);
      case _ =>
    }
  }

  /** Over any run both the issuance and the holdings of all accounts fall by the stake for each
      burning cancellation, of genesis auditors too, and change for no other reason. */
  lemma {:induction false} Circulation(r: Run, n: nat)
    requires n <= |r.xs|
    ensures Shrinks(r.At(0).balances, r.At(n).balances, Burnt(r, n))
  {
    if n > 0 {
      Circulation(r, n - 1);
      CirculationStep(r, n - 1);
    }
  }

  // ----- The holdings of one account -----

  function Holdings(s: State, who: AccountId): nat {
    s.balances.Of(who).free + s.balances.Of(who).reserved
  }

  /** What a call that succeeds brings to account a: transfers received, less those sent and
      what is burnt. */
  function Brought(cfg: Config, s: State, signer: AccountId, call: Call, a: AccountId): int {
    match call
    case Transfer(to, amount) => (if a == to then amount else 0) - (if a == signer then amount else 0)
    case CancelAccount => if a == signer && Burns(cfg, s, a) then 0 - cfg.minAuditorStake else 0
    case _ => 0
  }

  function NetAt(r: Run, n: nat, a: AccountId): int
    requires n < |r.xs|
  {
    if r.Succeeds(n) && r.xs[n].origin.Signed?
    then Brought(r.cfg, r.At(n), r.xs[n].origin.who, r.xs[n].call, a)
    else 0
  }

  function Net(r: Run, n: nat, a: AccountId): int
    requires n <= |r.xs|
  {
    if n == 0 then 0 else Net(r, n - 1, a) + NetAt(r, n - 1, a)
  }

  lemma {:induction false} HoldingsStep(r: Run, n: nat, a: AccountId)
    requires n < |r.xs|
    ensures Holdings(r.At(n + 1), a) == Holdings(r.At(n), a) + NetAt(r, n, a)
  {
    assert r.Step(n);
    if !Dispatcher.NeedsSignature(r.xs[n].call) {
      GameFrame(r.cfg, r.At(n), r.xs[n]);
    } else if r.Succeeds(n) {
      SignedHoldings(r.cfg, r.At(n), r.xs[n].origin.who, r.xs[n].call, a);
    }
  }

  lemma {:induction false} SignedHoldings(cfg: Config, s: State, signer: AccountId, call: Call, a: AccountId)
    requires Dispatcher.NeedsSignature(call) && Dispatcher.ApplySigned(cfg, s, signer, call).Ok?
    ensures Holdings(Dispatcher.ApplySigned(cfg, s, signer, call).value, a)
         == Holdings(s, a) + Brought(cfg, s, signer, call, a)
  {
  }

  /** Over any run, what an account holds, free and reserved together, changes by transfers and by
      the stake of its own burning cancellations, and for no other reason. With `SharedReserve`
      this gives the free balance of every account in every reachable state. */
  lemma {:induction false} HoldingsLedger(r: Run, n: nat, a: AccountId)
    requires n <= |r.xs|
    ensures Holdings(r.At(n), a) == Holdings(r.At(0), a) + Net(r, n, a)
  {
    if n > 0 {
      HoldingsLedger(r, n - 1, a);
      HoldingsStep(r, n - 1, a);
    }
  }
}
