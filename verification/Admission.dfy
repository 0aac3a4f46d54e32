/** Who becomes an auditor: the shape of the approval lists, where trust comes from, and
    which steps of a run lie behind every score.
  */
module Admission {
  import opened Prelude
  import opened Chain
  import opened Effects
  import opened Runs
  import AuditRep
  import Dispatcher

  predicate NoDuplicates(s: seq<AccountId>) {
    forall i, j :: 0 <= i < j < |s| ==> s[i] != s[j]
  }

  // ----- The approval lists -----

  /** Distinct approvers, not the owner; and a missing score means a missing approval. */
  predicate WellFormed(owner: AccountId, data: AuditorData) {
    && NoDuplicates(data.approvedBy)
    && owner !in data.approvedBy
    && (data.score.None? ==> |data.approvedBy| < 3)
  }

  predicate WellFormedEntries(s: State) {
    forall a :: a in s.auditors ==> WellFormed(a, s.auditors[a])
  }

  /** In every reachable state all entries are well formed, and a score that was not given
      at genesis rests on exactly three approvals. */
  lemma {:induction false} AdmissionInvariant(r: Run, n: nat)
    requires n <= |r.xs| && WellFormedEntries(r.At(0))
    ensures forall a :: a in r.At(n).auditors ==>
      && WellFormed(a, r.At(n).auditors[a])
      && (r.At(n).auditors[a].score.Some? && !r.Inherited(n, a) ==> |r.At(n).auditors[a].approvedBy| == 3)
  {
    if n > 0 {
      AdmissionInvariant(r, n - 1);
      forall a | a in r.At(n).auditors
        ensures WellFormed(a, r.At(n).auditors[a])
        ensures r.At(n).auditors[a].score.Some? && !r.Inherited(n, a) ==> |r.At(n).auditors[a].approvedBy| == 3
      {
        AdmissionStep(r, n - 1, a);
      }
    }
  }

  lemma {:induction false} AdmissionStep(r: Run, n: nat, a: AccountId)
    requires n < |r.xs| && a in r.At(n + 1).auditors
    requires forall b :: b in r.At(n).auditors ==>
      && WellFormed(b, r.At(n).auditors[b])
      && (r.At(n).auditors[b].score.Some? && !r.Inherited(n, b) ==> |r.At(n).auditors[b].approvedBy| == 3)
    ensures WellFormed(a, r.At(n + 1).auditors[a])
    ensures r.At(n + 1).auditors[a].score.Some? && !r.Inherited(n + 1, a) ==>
      |r.At(n + 1).auditors[a].approvedBy| == 3
  {
    StandingStep(r, n, a);
  }

  /** The bound on `approved_by` is never hit. */
  lemma {:induction false} StorageOverflowUnreachable(r: Run, n: nat, x: Extrinsic)
    requires n <= |r.xs| && WellFormedEntries(r.At(0))
    ensures Dispatcher.Apply(r.cfg, r.At(n), x) != Err(StorageOverflow)
  {
    AdmissionInvariant(r, n);
  }

  // ----- Rooted trust -----

  /** The accounts that have a score at genesis. */
  function Roots(s: State): set<AccountId> {
    set a | a in s.auditors && s.auditors[a].score.Some?
  }

  predicate BackedBy(roots: set<AccountId>, data: AuditorData) {
    NoDuplicates(data.approvedBy) && forall b :: b in data.approvedBy ==> b in roots
  }

  lemma {:induction false} Pigeonhole(s: seq<AccountId>, pool: set<AccountId>)
    requires NoDuplicates(s) && forall b :: b in s ==> b in pool
    ensures |s| <= |pool|
    decreases |s|
  {
    if s != [] {
      var last := s[|s| - 1];
      Pigeonhole(s[..|s| - 1], pool - {last});
    }
  }

  /** Every entry is backed by the roots only, and every score is an inherited one. */
  ghost predicate Rooted(r: Run, n: nat)
    requires n <= |r.xs|
  {
    var roots := Roots(r.At(0));
    && (forall a :: a in r.At(n).auditors ==> BackedBy(roots, r.At(n).auditors[a]))
    && (forall a :: r.At(n).ScoreOf(a).Some? ==> a in roots && r.Inherited(n, a))
  }

  /** With at most two scored auditors at genesis, nobody ever gains a score: every score in
      any reachable state belongs to a genesis auditor who never cancelled. */
  lemma {:induction false} RootedTrust(r: Run, n: nat)
    requires n <= |r.xs| && |Roots(r.At(0))| <= 2
    requires forall a :: a in r.At(0).auditors ==> BackedBy(Roots(r.At(0)), r.At(0).auditors[a])
    ensures Rooted(r, n)
  {
    if n > 0 {
      RootedTrust(r, n - 1);
      forall a | a in r.At(n).auditors
        ensures BackedBy(Roots(r.At(0)), r.At(n).auditors[a])
        ensures r.At(n).ScoreOf(a).Some? ==> a in Roots(r.At(0)) && r.Inherited(n, a)
      {
        RootedTrustStep(r, n - 1, a);
      }
    }
  }

  lemma {:induction false} RootedTrustStep(r: Run, n: nat, a: AccountId)
    requires n < |r.xs| && |Roots(r.At(0))| <= 2 && Rooted(r, n)
    requires a in r.At(n + 1).auditors
    ensures BackedBy(Roots(r.At(0)), r.At(n + 1).auditors[a])
    ensures r.At(n + 1).ScoreOf(a).Some? ==> a in Roots(r.At(0)) && r.Inherited(n + 1, a)
  {
    StandingStep(r, n, a);
    assert a in r.At(n).auditors ==> BackedBy(Roots(r.At(0)), r.At(n).auditors[a]);
    Pigeonhole(r.At(n + 1).auditors[a].approvedBy, Roots(r.At(0)));
  }

  lemma {:induction false} OneApproval(cfg: Config, s: State, approver: AccountId, approvee: AccountId)
    requires AuditRep.HasEnoughRank(s, approver, cfg.minimalApproverScore)
    requires approvee in s.auditors && s.auditors[approvee].score.None?
    requires approver !in s.auditors[approvee].approvedBy && |s.auditors[approvee].approvedBy| < 3
    ensures
      var data := s.auditors[approvee];
      var score := if |data.approvedBy| == 2 then Some(cfg.initialAuditorScore) else None;
      Dispatcher.Dispatch(cfg, s, Extrinsic(Signed(approver), ApproveAuditor(approvee))).auditors
        == s.auditors[approvee := AuditorData(score, data.profileHash, data.approvedBy + [approver])]
  {
  }

  lemma {:induction false} OneSignUp(cfg: Config, s: State, who: AccountId, profileHash: Hash)
    requires who !in s.auditors && s.balances.Of(who).free >= cfg.minAuditorStake
    ensures Dispatcher.Dispatch(cfg, s, Extrinsic(Signed(who), SignUp(profileHash))).auditors
         == s.auditors[who := AuditorData(None, profileHash, [])]
  {
  }

  /** Three qualified auditors are enough: they turn any outsider who can pay the stake into
      an auditor. So the bound of two in `RootedTrust` cannot be raised. */
  lemma {:induction false} ThreeApproversSuffice(cfg: Config, s: State, outsider: AccountId, profileHash: Hash,
                                                 a: AccountId, b: AccountId, c: AccountId)
    requires a != b && a != c && b != c && outsider !in s.auditors
    requires AuditRep.HasEnoughRank(s, a, cfg.minimalApproverScore)
    requires AuditRep.HasEnoughRank(s, b, cfg.minimalApproverScore)
    requires AuditRep.HasEnoughRank(s, c, cfg.minimalApproverScore)
    requires s.balances.Of(outsider).free >= cfg.minAuditorStake
    ensures
      var xs := [Extrinsic(Signed(outsider), SignUp(profileHash)),
                 Extrinsic(Signed(a), ApproveAuditor(outsider)),
                 Extrinsic(Signed(b), ApproveAuditor(outsider)),
                 Extrinsic(Signed(c), ApproveAuditor(outsider))];
      Execute(cfg, s, xs).At(4).auditors
        == s.auditors[outsider := AuditorData(Some(cfg.initialAuditorScore), profileHash, [a, b, c])]
  {
    var xs := [Extrinsic(Signed(outsider), SignUp(profileHash)),
               Extrinsic(Signed(a), ApproveAuditor(outsider)),
               Extrinsic(Signed(b), ApproveAuditor(outsider)),
               Extrinsic(Signed(c), ApproveAuditor(outsider))];
    var r := Execute(cfg, s, xs);
    assert r.Step(0) && r.Step(1) && r.Step(2) && r.Step(3);
    OneSignUp(cfg, s, outsider, profileHash);
    assert r.At(1).auditors == s.auditors[outsider := AuditorData(None, profileHash, [])];
    OneApproval(cfg, r.At(1), a, outsider);
    assert [] + [a] == [a];
    assert r.At(2).auditors == s.auditors[outsider := AuditorData(None, profileHash, [a])];
    OneApproval(cfg, r.At(2), b, outsider);
    assert [a] + [b] == [a, b];
    assert r.At(3).auditors == s.auditors[outsider := AuditorData(None, profileHash, [a, b])];
    OneApproval(cfg, r.At(3), c, outsider);
    assert [a, b] + [c] == [a, b, c];
  }
}
