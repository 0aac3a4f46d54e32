# The two pallets of QRUCIAL DAO, verified

A Dafny model of the two on-chain pallets of QRUCIAL DAO as one transition system, with proofs about
single calls, reachable states and whole runs.

- **AuditRep** (`audit-pallet`): sign-up with a reserved stake, admission by three approvers,
  cancellation, Elo scores.
- **ExoSys** (`exo-pallet`): review requests with a reserved bounty, reports, challenges, and the closing
  of challenges, which plays an Elo game between challenger and author of the report.
- **Elo**: signed 33.31 fixed-point arithmetic on raw 64-bit integers.

## How it is built

| file | content |
|---|---|
| `Prelude.dfy`, `Chain.dfy` | data of both pallets, events, errors, configuration, storage |
| `Elo.dfy` | the fixed-point arithmetic and the Elo step |
| `EloProofs.dfy`, `EloLaws.dfy` | exact values, bounds, near-conservation, monotonicity of one game |
| `Currency.dfy`, `AuditRep.dfy`, `ExoSys.dfy`, `Dispatcher.dfy` | the effect of every call on values |
| `Runtime.dfy` | class `Node`: the storage and the calls, changing it step by step; each call is proved against its effect |
| `Runs.dfy`, `Effects.dfy`, `ExoChanges.dfy` | runs, and what one step of a run does |
| `Outcomes.dfy` | how each call ends in any state: success, or which error; games with known scores |
| `Closing.dfy` | closing a challenge |
| `Ledgers.dfy`, `Authorship.dfy`, `Replay.dfy` | reviews, reports, vulnerabilities, challenges, event log |
| `Admission.dfy`, `Provenance.dfy` | who becomes an auditor, and why |
| `MapSums.dfy`, `Reserves.dfy` | the reserve both pallets share, money in circulation |
| `ScoreRanges.dfy`, `Conservation.dfy` | scores over whole runs |
| `NodeLaws.dfy` | the same, read off the storage of a node |

A call of class `Node` that fails may leave earlier writes behind, as in the source; `Dispatch` runs it in
a storage layer and undoes them. A `Run` is the record of any sequence of extrinsics, failing ones
included, by any origins; `Execute` shows that every sequence makes one. The theorems quantify over all
configurations, starting states and runs, with the conditions stated in each. Besides the twelve calls of
the pallets a run may contain transfers of free balance, so that balances can change between the calls.

Together the lemmas about one step leave nothing of a call open: `Outcomes` fixes success and error,
`StandingStep` the entry of every account, `ExoStep` the ExoSys storage and the events, `ReserveStep` and
`HoldingsStep` the balances of every account, `CirculationStep` the issuance.

## Assumptions on what lies outside the pallets

- `pow` is an arbitrary partial function from raw exponents to non-negative raw results. Each lemma names
  what it needs of it (monotone, nearly or exactly reciprocal).
- Fixed-point operators and `to_num` wrap, as in a build without overflow checks; a build with checks
  would stop instead. Products with k are exact here, so their rounding does not matter.
- The existential deposit is 1, as in the mock runtime (`qdao-node/audit-pallet/src/mock.rs:31-33`), and
  there are no locks. So no dust is burnt and a balance is free plus reserved.
- Origins are a value; which of them may approve, reject or remove is a parameter, as in the `Config`
  trait of ExoSys. The three closing calls are one `Call` with a verdict, and three methods of `Node`.
- Hashes, profiles and descriptions are opaque values. Of a URL only the length limit matters. The bounds
  of bounded vectors are part of the types.

## Results worth knowing

- A genesis auditor has no stake reserved, but cancelling unreserves one: up to `MinAuditorStake` of the
  bounties of that account is released (`BountyDrained`). `SharedReserve` accounts for it with `Drained`;
  `PlainReserveIff` says exactly when it is zero.
- A looser whose unrounded new score is at or below minus one half ends within 32 points of 2^32, and a
  winner who passes the end of the range with at most 32 points (`DirectionInRun`). So a score stays in
  its range for as long as every game fits (`ScoreRange`), and `RangeLeft` is a run that leaves it. The
  overflow error of `apply_result` does not catch this: it is only returned when `pow` fails.
- Root can submit a game of an account against itself. The two results are written one after the other, so
  that only the one of player 1 remains; the account gains or loses points on its own. Challenges never
  lead to such a game (`DistinctPlayers`).
- The sum 1 + pow may overflow without harm: the wrapped quotient is 0, like the exact one.
- Closing is never final (`ClosableAgain`): `close_challenge` does not look at the present state.

Where comments and code disagree, the model follows the code: `has_enough_rank` accepts a score equal to
the threshold; a challenger with a closed challenge still counts as a duplicate; removing a challenge is a
call of its own and does not follow from accepting another one; no challenge deposit is taken, returned or
slashed; `InsufficientStake` is never returned.

## Model

| member | source | states |
|---|---|---|
| EloProofs.CalculateIs | qdao-node/audit-pallet/src/elo_comp.rs:13-29 | `calculate` succeeds iff both powers exist, and then gives exactly the rounded scores where these are representable and exactly the wrapped ones elsewhere: a wrapped winner is left with at most k, a wrapped looser with at least 2^32 - k |
| EloProofs.ReciprocalIs | qdao-node/audit-pallet/src/elo_comp.rs:7-11 | 1 / (1 + pow) is the truncated quotient for every non-negative pow, also where the sum overflows |
| EloLaws.ExpectedInUnitInterval | qdao-node/audit-pallet/src/elo_comp.rs:7-11 | every expected value lies in [0, 1] |
| EloLaws.ScoreBounds | qdao-node/audit-pallet/src/elo_comp.rs:13-29 | winner <= new <= winner + k and looser - k <= new <= looser, away from the ends of the range, for any pow |
| EloLaws.DirectionIff | qdao-node/audit-pallet/src/elo_comp.rs:20-28 | exactly when each score moves the right way: the rounded gain fits `u32`, the unrounded remainder is above minus one half; and where a score ends that does not |
| EloLaws.EqualMatch | qdao-node/audit-pallet/src/tests.rs:242-265 | a match of equals moves 16 points, as from 2000 to 2016 and 1984, modulo 2^32: from below 16 the looser ends at score - 16 + 2^32 |
| EloLaws.KnownRatings | qdao-node/audit-pallet/src/elo_comp.rs:37-46 | 1200 against 1400 gives 1224 and 1376, or 1192 and 1408, for any pow that puts the square root of 10 between 3 and 3 1/4 and its reciprocal between 5/16 and 11/32 |
| EloLaws.ExpectedSum | qdao-node/audit-pallet/src/elo_comp.rs:16-17 | the two expected values add up to 1, up to the reciprocal error of the powers and two truncations |
| EloLaws.NearConservation | qdao-node/audit-pallet/src/elo_comp.rs:13-29 | with nearly reciprocal powers a game whose two new scores fit changes their sum by at most 1, with exactly reciprocal ones by 0 or +1; if only one of them fits the sum is not conserved |
| EloLaws.ExponentIs | qdao-node/audit-pallet/src/elo_comp.rs:8 | the exponent is the score difference over 400, truncated toward zero, and changes sign with the players |
| EloLaws.WinnerMonotone | qdao-node/audit-pallet/src/elo_comp.rs:20-27 | for a monotone pow, beating a higher-rated opponent never gives less, exactly unless only the larger gain leaves the `u32` range |
| EloLaws.LooserMonotone | qdao-node/audit-pallet/src/elo_comp.rs:22-27 | for a monotone pow, losing to a higher-rated opponent never costs more, exactly unless only the larger loss leaves the `u32` range |
| Runtime.Node.constructor | qdao-node/audit-pallet/src/lib.rs:116-124 | genesis inserts the listed auditors and leaves all other storage empty |
| AuditRep.GenesisEntry | qdao-node/audit-pallet/src/lib.rs:118-123 | an account has a genesis entry iff it is listed, namely the last one listed for it |
| Runtime.Node.Reserve | qdao-node/audit-pallet/src/lib.rs:188 | moves money from the free to the reserved balance, or fails with InsufficientBalance |
| Runtime.Node.Unreserve | qdao-node/audit-pallet/src/lib.rs:234 | moves back at most what is reserved, whoever reserved it |
| Runtime.Node.Withdraw | qdao-node/audit-pallet/src/lib.rs:238-243 | takes money out of circulation, or fails with InsufficientBalance |
| Runtime.Node.SignUp | qdao-node/audit-pallet/src/lib.rs:176-202 | outcome, error and new storage of `sign_up` |
| Runtime.Node.UpdateProfile | qdao-node/audit-pallet/src/lib.rs:211-222 | outcome, error and new storage of `update_profile` |
| Runtime.Node.CancelAccount | qdao-node/audit-pallet/src/lib.rs:229-250 | outcome, error and new storage of `cancel_account` |
| Runtime.Node.ApproveAuditor | qdao-node/audit-pallet/src/lib.rs:259-299 | outcome, error and new storage of `approve_auditor` |
| Runtime.Node.SubmitGame | qdao-node/audit-pallet/src/lib.rs:311-322 | outcome, error and new storage of `game_result` |
| Runtime.Node.ApplyResult | qdao-node/audit-pallet/src/lib.rs:352-402 | outcome, error and new storage of `apply_result`, self-play included |
| Runtime.Node.HasEnoughRank | qdao-node/audit-pallet/src/lib.rs:409-417 | an approved auditor with at least the given score |
| Runtime.Node.RequestReview | qdao-node/exo-pallet/src/lib.rs:329-368 | outcome, error and new storage of `request_review`; the bounty is reserved before the URL is checked |
| Runtime.Node.AuditReview | qdao-node/exo-pallet/src/lib.rs:561-572 | the signer, if the review exists and the signer's score reaches its threshold; errors in the order of the source |
| Runtime.Node.NewReportId | qdao-node/exo-pallet/src/lib.rs:574-588 | the length of the report list, unless the auditor already has a report in it |
| Runtime.Node.TryAppendReport | qdao-node/exo-pallet/src/lib.rs:379-386 | appends one report, or fails with TooManyReports at ten |
| Runtime.Node.ReviewInvalid | qdao-node/exo-pallet/src/lib.rs:374-394 | outcome, error and new storage of `review_invalid` |
| Runtime.Node.ReviewReport | qdao-node/exo-pallet/src/lib.rs:399-435 | outcome, error and new storage of `review_report` |
| Runtime.Node.DepositVulnerabilities | qdao-node/exo-pallet/src/lib.rs:423-432 | the loop deposits one numbered event per vulnerability, in order |
| Runtime.Node.ReportAuditor | qdao-node/exo-pallet/src/lib.rs:590-601 | the author of the report at that position, or ReportNotFound |
| Runtime.Node.NewChallengeId | qdao-node/exo-pallet/src/lib.rs:603-618 | the length of the challenge list, unless the auditor already has a challenge in it |
| Runtime.Node.ChallengeReport | qdao-node/exo-pallet/src/lib.rs:440-474 | outcome, error and new storage of `challenge_report` |
| Runtime.Node.CloseChallenge | qdao-node/exo-pallet/src/lib.rs:620-645 | writes the state, then plays the game, which may still fail |
| Runtime.Node.ApproveChallenge | qdao-node/exo-pallet/src/lib.rs:482-502 | outcome, error and new storage of `approve_challenge`: the challenger wins |
| Runtime.Node.RejectChallenge | qdao-node/exo-pallet/src/lib.rs:509-529 | outcome, error and new storage of `reject_challenge`: the author of the report wins |
| Runtime.Node.RemoveChallenge | qdao-node/exo-pallet/src/lib.rs:536-556 | outcome, error and new storage of `remove_challenge`: a draw |
| Runtime.Node.Dispatch | qdao-node/exo-pallet/src/lib.rs:321-325 | runs one extrinsic in a storage layer: on an error nothing has changed; and records it in the run |
| Outcomes.SignUpEnds | qdao-node/audit-pallet/src/lib.rs:176-202 | exactly when signing up succeeds in any state, and which error it returns otherwise, changing nothing |
| Outcomes.UpdateProfileEnds | qdao-node/audit-pallet/src/lib.rs:211-222 | exactly when updating a profile succeeds; then the profile of this entry differs and nothing else does |
| Outcomes.CancelAccountEnds | qdao-node/audit-pallet/src/lib.rs:229-250 | exactly when a cancellation succeeds in any state, and which error it returns otherwise |
| Outcomes.ApproveAuditorEnds | qdao-node/audit-pallet/src/lib.rs:259-299 | exactly when an approval succeeds in any state, and which of the eight errors it returns otherwise |
| Outcomes.SubmitGameEnds | qdao-node/audit-pallet/src/lib.rs:311-322 | a submitted game succeeds iff root submits it, both players have scores and (unless a draw) both powers exist, one and the same player included; which error otherwise |
| Outcomes.RequestReviewEnds | qdao-node/exo-pallet/src/lib.rs:329-368 | a request succeeds iff signed, the hash is new, the bounty is free and the URL has at most 256 bytes; which error otherwise |
| Outcomes.ReviewInvalidEnds | qdao-node/exo-pallet/src/lib.rs:374-394 | a rejection is accepted iff signed, the review exists, the score is at least its threshold, the auditor has no report on it and there are fewer than ten; which error otherwise |
| Outcomes.ReviewReportEnds | qdao-node/exo-pallet/src/lib.rs:399-435 | a report of up to 50 vulnerabilities is accepted under exactly the same conditions; which error otherwise |
| Outcomes.ChallengeReportEnds | qdao-node/exo-pallet/src/lib.rs:440-474 | a challenge is accepted iff signed, with the rank, the report exists, its author is another account that has not challenged it yet, and there are fewer than ten; which error otherwise |
| Outcomes.CloseChallengeEnds | qdao-node/exo-pallet/src/lib.rs:478-645 | exactly when a closing succeeds in any state, for each verdict, and which error it returns otherwise |
| Outcomes.EqualsPlay | qdao-node/audit-pallet/src/tests.rs:235-265 | through the submitted call: from 2000 and 2000 to 2016 and 1984, whoever wins |
| Outcomes.UnequalsPlay | qdao-node/audit-pallet/src/elo_comp.rs:37-46 | through the submitted call: from 1200 and 1400 to 1224 and 1376, or to 1192 and 1408 |
| Closing.DistinctPlayers | qdao-node/exo-pallet/src/lib.rs:449-450 | every game played by closing a challenge is between two distinct accounts, however much later it is closed |
| Closing.PlayExactly | qdao-node/audit-pallet/src/lib.rs:352-402 | exactly when a game between two accounts succeeds, and exactly what it changes |
| Closing.CloseExactly | qdao-node/exo-pallet/src/lib.rs:620-645 | in every reachable state closing succeeds iff origin, report, challenge, both scores and (unless a draw) both powers are there; then exactly one challenge state and two scores change, otherwise nothing |
| Closing.ClosableAgain | qdao-node/exo-pallet/src/lib.rs:628-640 | no closing is final: a closed challenge can be closed, and its game played, again |
| Ledgers.LedgerInvariant | qdao-node/exo-pallet/src/lib.rs:574-618 | in every reachable state: reports of a review by distinct auditors, challenges of a report by distinct challengers other than its author, every non-empty list belongs to an existing review or report, and a report is in the vulnerability index iff it exists and has kind Success |
| Ledgers.AppendOnly | qdao-node/exo-pallet/src/lib.rs:374-474 | between any two points of a run reviews and vulnerability lists stay as they are, report lists and the event log are extended, of a challenge only the state changes, and what is not Pending never becomes Pending |
| ExoChanges.ExoStep | qdao-node/exo-pallet/src/lib.rs:324-557 | every extrinsic makes one elementary change to ExoSys storage, admissible at that point, and deposits exactly its events, those of sign-ups and games included |
| Authorship.QualifiedReport | qdao-node/exo-pallet/src/lib.rs:374-435 | every stored report was filed in some step by its author, who had the score the review asks for at that step; the vulnerabilities stored for it are those submitted then |
| Authorship.QualifiedChallenge | qdao-node/exo-pallet/src/lib.rs:440-474 | every stored challenge was filed in some step, with its demands, by its author, who had the required score at that step |
| Replay.ReplayVulnerabilities | qdao-node/exo-pallet/src/lib.rs:422-432 | the events of the loop rebuild the submitted list, the empty one included |
| Replay.ReplayRefinesStorage | qdao-node/exo-pallet/src/lib.rs:329-556 | in every reachable state, replaying the event log rebuilds exactly reviews, reports, vulnerabilities, and place, author and state of every challenge |
| Effects.StandingStep | qdao-node/audit-pallet/src/lib.rs:176-402 | what every extrinsic does to the whole entry of every account, score, profile and approvals, read off call and outcome; of an account that plays itself the score as player 1 remains |
| Admission.AdmissionInvariant | qdao-node/audit-pallet/src/lib.rs:259-299 | in every reachable state approvers are distinct and not the owner, an unscored entry has fewer than three, and a score not given at genesis rests on exactly three |
| Admission.StorageOverflowUnreachable | qdao-node/audit-pallet/src/lib.rs:284-288 | no extrinsic ever fails with StorageOverflow |
| Admission.RootedTrust | qdao-node/audit-pallet/src/lib.rs:259-299 | with at most two scored auditors at genesis nobody ever gains a score, and who cancels never regains one |
| Admission.ThreeApproversSuffice | qdao-node/audit-pallet/src/lib.rs:259-299 | three qualified auditors turn any outsider who can pay the stake into an auditor |
| Provenance.ApprovalProvenance | qdao-node/audit-pallet/src/lib.rs:229-299 | when a step gives a score to an account that signed up in the run, the run since that sign-up holds exactly three approvals of it, by three distinct others, each qualified at its own step, and no cancellation |
| Provenance.LatestProfile | qdao-node/audit-pallet/src/lib.rs:176-222 | in every reachable state the profile of an auditor is the one of its latest successful sign-up or update, or the genesis one if there is none |
| Reserves.SharedReserve | qdao-node/audit-pallet/src/lib.rs:188-239 | in every reachable state the reserve of every account is its starting reserve, plus the stake if it signed up, plus all bounties it offered, minus what cancelling a genesis entry drained |
| Reserves.PlainReserveIff | qdao-node/audit-pallet/src/lib.rs:234 | the reserve is exactly start + stake + bounties iff no genesis entry of that account was cancelled with a reserve above zero and a stake above zero |
| Reserves.BountyDrained | qdao-node/audit-pallet/src/lib.rs:229-250 | a run in which it is not: a genesis auditor without a reserve offers a bounty, cancels, and takes back up to one stake of it |
| Reserves.RequestStep | qdao-node/exo-pallet/src/lib.rs:343 | requesting a review raises reserve and bounties of the requestor alike, and of nobody else |
| Reserves.CancelSucceedsIff | qdao-node/audit-pallet/src/lib.rs:229-250 | exactly when a cancellation succeeds, in any state |
| Reserves.CancelIsTotal | qdao-node/audit-pallet/src/lib.rs:229-250 | who signed up in the run can always cancel; all bounties stay reserved; the stake is returned, or burnt below the initial score; nothing else changes |
| Reserves.Circulation | qdao-node/audit-pallet/src/lib.rs:234-245 | over any run issuance and total holdings fall by the stake per burning cancellation, and by nothing else |
| Reserves.HoldingsLedger | qdao-node/audit-pallet/src/lib.rs:188-245 | over any run what one account holds, free and reserved, changes by transfers and its own burning cancellations only |
| ScoreRanges.ScoreRange | qdao-node/audit-pallet/src/lib.rs:352-402 | in every run: if all games since the score was given fitted, it is within 32 points per loss and per win of where it started, after any number of games |
| ScoreRanges.AllFittedIff | qdao-node/audit-pallet/src/lib.rs:365-390 | all games that made a score fitted iff every one of them moved the auditor the right way |
| ScoreRanges.EarlyLossFits | qdao-node/audit-pallet/src/elo_comp.rs:22-28 | a loss takes at most 32 points, and never leaves the range, while the starting score covers 32 points per loss (31 losses from 1000) |
| ScoreRanges.SafeScoreRange | qdao-node/audit-pallet/src/elo_comp.rs:20-28 | games fit as long as 32 points per win and per loss do not lead out of `u32` |
| ScoreRanges.RangeLeft | qdao-node/audit-pallet/src/elo_comp.rs:20-28 | a run that leaves the range: of two equals below 16 points the looser of one game ends near 2^32 |
| ScoreRanges.DirectionInRun | qdao-node/audit-pallet/src/lib.rs:365-390 | a decided game moves an auditor the right way iff it fits, and iff it moves the score by at most 32 points; where the score ends otherwise |
| Conservation.ScoreLedger | qdao-node/audit-pallet/src/lib.rs:229-402 | in every run, from every state, the sum of all scores is exactly genesis sum + granted - removed + the drift of the games |
| Conservation.ScoreConservation | qdao-node/audit-pallet/src/lib.rs:229-402 | in a run of fair games that drift is at most one point per game between two accounts and 32 per game of an account against itself; with exactly reciprocal powers only the latter can make it negative |
| Conservation.NoSelfGames | qdao-node/audit-pallet/src/lib.rs:311-322 | such games of an account against itself only exist if root submits one |
| NodeLaws.NodeKeepsItsWord | qdao-node/audit-pallet/src/lib.rs:116-124 | a node started from a genesis list of scored auditors without approvals keeps ledgers, entries and event log consistent |

## Left out

- Council voting, sudo, signatures, weights and fees: library pallets.
- The inside of `substrate_fixed::transcendental::pow`: not part of this model; it is the parameter `pow`.
- Locks, dust and other existential deposits than 1: with the 500 of the runtime a burning cancellation can
  reap an account, which happens inside the balances pallet.
- Bounty payout, challenge deposits, and applying the add, remove and patch lists of a challenge: mentioned in
  comments and events, but not implemented; the two events for patched and removed vulnerabilities are
  never deposited and are not declared.
- The demands of a challenge are in no event, so `Replay.ReplayRefinesStorage` rebuilds challenges without them.
- The 128-bit bound of balances: no sum can pass the issuance.
- The bound on the number of blocks whose events a client can still fetch: the log holds all events since genesis.
- Front end, `exotools`, `exosysd`, node client, scripts and containers: no on-chain state.
