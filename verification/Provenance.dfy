/** Behind every score there are three approvals: an auditor who signed up in the run was
    approved by three distinct others, each qualified at the time, since the last sign-up.
  */
module Provenance {
  import opened Prelude
  import opened Admission
  import opened Chain
  import opened Effects
  import opened Runs
  import AuditRep

  /** The step of an account's sign-up, and the steps at which it was approved since. */
  datatype History = History(joined: nat, approvals: seq<nat>)

  // ----- Histories of a sequence of effects on one account -----

  /** The history tells the membership part of a life: the sign-up, after it no other sign-up
      and no cancellation, and exactly these approvals, by these approvers. */
  ghost predicate Tells(h: History, life: seq<Effect>, approvers: seq<AccountId>) {
    && h.joined < |life| && life[h.joined].Joined?
    && (forall m :: h.joined < m < |life| ==> !life[m].Joined? && life[m] != Left)
    && (forall m :: h.joined < m < |life| && life[m].Approved? ==> m in h.approvals)
    && |h.approvals| == |approvers|
    && (forall i :: 0 <= i < |approvers| ==>
          h.joined < h.approvals[i] < |life| && life[h.approvals[i]] == Approved(approvers[i]))
    && (forall i, j :: 0 <= i < j < |approvers| ==> h.approvals[i] < h.approvals[j])
  }

  lemma {:induction false} TellsMore(h: History, life: seq<Effect>, approvers: seq<AccountId>, e: Effect)
    requires Tells(h, life, approvers) && !e.Joined? && e != Left
    ensures !e.Approved? ==> Tells(h, life + [e], approvers)
    ensures e.Approved? ==> Tells(h.(approvals := h.approvals + [|life|]), life + [e], approvers + [e.approver])
  {
  }

  /** How an effect changes membership and approvals; scores are not looked at. */
  ghost predicate Moves(a: AccountId, e: Effect, before: Standing, after: Standing) {
    match e
    case Joined(profile) => after == Present(None, profile, [])
    case Left => after == Absent
    case Approved(b) =>
      && before.Present? && after.Present?
      && b != a && b !in before.approvedBy && after.approvedBy == before.approvedBy + [b]
    case _ => before.Present? == after.Present? && (after.Present? ==> after.approvedBy == before.approvedBy)
  }

  ghost predicate Coherent(a: AccountId, life: seq<Effect>, standings: seq<Standing>) {
    && |standings| == |life| + 1
    && forall m {:trigger life[m]} :: 0 <= m < |life| ==> Moves(a, life[m], standings[m], standings[m + 1])
  }

  lemma {:induction false} CoherentPrefix(a: AccountId, life: seq<Effect>, standings: seq<Standing>)
    requires |life| > 0 && Coherent(a, life, standings)
    ensures
      var n := |life| - 1;
      && Coherent(a, life[..n], standings[..n + 1])
      && Moves(a, life[n], standings[n], standings[n + 1])
      && (Left in life && life[n] != Left ==> Left in life[..n])
  {
  }

  /** A member that was absent at some time has a history that explains its approvals. */
  lemma {:induction false} HistoryOf(a: AccountId, life: seq<Effect>, standings: seq<Standing>) returns (h: History)
    requires Coherent(a, life, standings) && standings[|life|].Present?
    requires standings[0].Present? ==> Left in life
    ensures Tells(h, life, standings[|life|].approvedBy)
    ensures NoDuplicates(standings[|life|].approvedBy) && a !in standings[|life|].approvedBy
    decreases |life|
  {
    var n := |life| - 1;
    var e := life[n];
    CoherentPrefix(a, life, standings);
    assert life == life[..n] + [e];
    if e.Joined? {
      h := History(n, []);
    } else {
      h := HistoryOf(a, life[..n], standings[..n + 1]);
      TellsMore(h, life[..n], standings[n].approvedBy, e);
      if e.Approved? {
        h := h.(approvals := h.approvals + [n]);
      }
    }
  }

  // ----- Provenance of a score -----

  ghost predicate QualifiedApproval(r: Run, n: nat, approver: AccountId, approvee: AccountId)
    requires n < |r.xs|
  {
    && r.Approves(n, approver, approvee)
    && AuditRep.HasEnoughRank(r.At(n), approver, r.cfg.minimalApproverScore)
  }

  /** After the sign-up of a at step `joined`, three distinct other accounts approved a at the
      steps s1 < s2 < s3, each having the required score at its own step; and up to s3 there
      was no other approval of a, no cancellation by a and no other sign-up of a. */
  ghost predicate Admitted(r: Run, a: AccountId, joined: nat, s1: nat, s2: nat, s3: nat,
                           b1: AccountId, b2: AccountId, b3: AccountId)
  {
    && joined < s1 < s2 < s3 < |r.xs|
    && r.SignsUp(joined, a)
    && b1 != b2 && b1 != b3 && b2 != b3 && a !in {b1, b2, b3}
    && QualifiedApproval(r, s1, b1, a)
    && QualifiedApproval(r, s2, b2, a)
    && QualifiedApproval(r, s3, b3, a)
    && forall m: nat :: joined < m <= s3 ==> OnlyThese(r, a, m, {s1, s2, s3})
  }

  ghost predicate OnlyThese(r: Run, a: AccountId, m: nat, steps: set<nat>)
    requires m < |r.xs|
  {
    && !r.SignsUp(m, a)
    && !r.Cancels(m, a)
    && (m in steps || forall b :: !r.Approves(m, b, a))
  }

  lemma {:induction false} QualifiedStep(r: Run, n: nat, a: AccountId, b: AccountId)
    requires n < |r.xs| && EffectOn(r, n, a) == Approved(b)
    ensures QualifiedApproval(r, n, b, a)
  {
    StandingStep(r, n, a);
    EffectCauses(r, n, a);
  }

  lemma {:induction false} OnlyStep(r: Run, n: nat, a: AccountId, steps: set<nat>)
    requires n < |r.xs|
    requires !EffectOn(r, n, a).Joined? && EffectOn(r, n, a) != Left
    requires EffectOn(r, n, a).Approved? ==> n in steps
    ensures OnlyThese(r, a, n, steps)
  {
  }

  lemma {:induction false} LifeStep(r: Run, n: nat, a: AccountId) returns (e: Effect)
    requires n < |r.xs|
    ensures e == EffectOn(r, n, a) && Moves(a, e, StandingOf(r.At(n), a), StandingOf(r.At(n + 1), a))
    ensures e == Left || r.Inherited(n + 1, a) == r.Inherited(n, a)
  {
    e := EffectOn(r, n, a);
    StandingStep(r, n, a);
    InheritedStep(r, n, a);
  }

  /** The effects on account a, and its standings, in the first n steps. */
  lemma {:induction false} LifeOf(r: Run, n: nat, a: AccountId) returns (life: seq<Effect>, standings: seq<Standing>)
    requires n <= |r.xs|
    ensures |life| == n && Coherent(a, life, standings)
    ensures forall m :: 0 <= m < n ==> life[m] == EffectOn(r, m, a)
    ensures standings[0] == StandingOf(r.At(0), a) && standings[n] == StandingOf(r.At(n), a)
    ensures standings[0].Present? && !r.Inherited(n, a) ==> Left in life
  {
    if n == 0 {
      life, standings := [], [StandingOf(r.At(0), a)];
    } else {
      life, standings := LifeOf(r, n - 1, a);
      var e := LifeStep(r, n - 1, a);
      life, standings := LongerLife(a, life, standings, e, StandingOf(r.At(n), a));
    }
  }

  lemma {:induction false} LongerLife(a: AccountId, life: seq<Effect>, standings: seq<Standing>, e: Effect,
                                      after: Standing)
    returns (life': seq<Effect>, standings': seq<Standing>)
    requires Coherent(a, life, standings) && Moves(a, e, standings[|life|], after)
    ensures life' == life + [e] && standings' == standings + [after]
    ensures Coherent(a, life', standings')
    ensures Left in life || e == Left ==> Left in life'
  {
    life', standings' := life + [e], standings + [after];
    if e == Left {
      assert life'[|life|] == Left;
    } else if Left in life {
      var m :| 0 <= m < |life| && life[m] == Left;
      assert life'[m] == Left;
    }
  }

  /** Whenever a step gives a score to an account that signed up in the run, the run since
      that sign-up holds exactly three approvals of it, the last of them being this step, by
      three distinct other accounts with the required score at their own steps, and neither a
      cancellation nor another sign-up. */
  lemma {:induction false} ApprovalProvenance(r: Run, n: nat, a: AccountId)
    requires n < |r.xs|
    requires r.At(n).ScoreOf(a).None? && r.At(n + 1).ScoreOf(a).Some? && !r.Inherited(n, a)
    ensures exists joined, s1, s2, b1, b2, b3 :: Admitted(r, a, joined, s1, s2, n, b1, b2, b3)
  {
    var b3 := LastApprover(r, n, a);
    var joined, s1, s2, b1, b2 := FirstTwoApprovals(r, n, a);
    assert Admitted(r, a, joined, s1, s2, n, b1, b2, b3);
  }

  lemma {:induction false} FirstTwoApprovals(r: Run, n: nat, a: AccountId)
    returns (joined: nat, s1: nat, s2: nat, b1: AccountId, b2: AccountId)
    requires n < |r.xs| && !r.Inherited(n, a)
    requires StandingOf(r.At(n), a).Present? && |StandingOf(r.At(n), a).approvedBy| == 2
    ensures joined < s1 < s2 < n && r.SignsUp(joined, a)
    ensures StandingOf(r.At(n), a).approvedBy == [b1, b2] && b1 != b2 && a !in {b1, b2}
    ensures QualifiedApproval(r, s1, b1, a) && QualifiedApproval(r, s2, b2, a)
    ensures forall m: nat :: joined < m < n ==> OnlyThese(r, a, m, {s1, s2, n})
  {
    var life, standings := LifeOf(r, n, a);
    var h := HistoryOf(a, life, standings);
    joined, s1, s2 := h.joined, h.approvals[0], h.approvals[1];
    b1, b2 := standings[n].approvedBy[0], standings[n].approvedBy[1];
    assert life[s1] == Approved(b1) && life[s2] == Approved(b2) && life[joined].Joined?;
    QualifiedStep(r, s1, a, b1);
    QualifiedStep(r, s2, a, b2);
    EffectCauses(r, joined, a);
    forall m: nat | joined < m < n
      ensures OnlyThese(r, a, m, {s1, s2, n})
    {
      assert life[m].Approved? ==> m in h.approvals;
      OnlyStep(r, m, a, {s1, s2, n});
    }
  }

  lemma {:induction false} LastApprover(r: Run, n: nat, a: AccountId) returns (b: AccountId)
    requires n < |r.xs|
    requires r.At(n).ScoreOf(a).None? && r.At(n + 1).ScoreOf(a).Some?
    ensures b != a && QualifiedApproval(r, n, b, a) && OnlyThese(r, a, n, {n})
    ensures StandingOf(r.At(n), a).Present? && |StandingOf(r.At(n), a).approvedBy| == 2
    ensures b !in StandingOf(r.At(n), a).approvedBy
  {
    StandingStep(r, n, a);
    b := EffectOn(r, n, a).approver;
    QualifiedStep(r, n, a, b);
    OnlyStep(r, n, a, {n});
  }

  // ----- Provenance of a profile -----

  /** Step n is a successful sign-up or update by a that brings this profile. */
  predicate Writes(r: Run, n: nat, a: AccountId, profile: Hash)
    requires n < |r.xs|
  {
    r.Does(n, a, SignUp(profile)) || r.Does(n, a, UpdateProfile(profile))
  }

  /** In the first n steps, none from step m on brought a profile of a. */
  ghost predicate NoneWrites(r: Run, m: nat, n: nat, a: AccountId)
    requires n <= |r.xs|
  {
    forall k: nat, profile :: m <= k < n ==> !Writes(r, k, a, profile)
  }

  lemma {:induction false} WritesIff(r: Run, n: nat, a: AccountId)
    requires n < |r.xs|
    ensures forall profile :: Writes(r, n, a, profile) <==>
              EffectOn(r, n, a) == Joined(profile) || EffectOn(r, n, a) == Updated(profile)
  {
  }

  /** The stored profile of every auditor is the one of the latest successful sign-up or update by
      that account, or the one given at genesis if there is none. */
  lemma {:induction false} LatestProfile(r: Run, n: nat, a: AccountId)
    requires n <= |r.xs| && a in r.At(n).auditors
    ensures
      var profile := r.At(n).auditors[a].profileHash;
      || (NoneWrites(r, 0, n, a) && r.Inherited(n, a) && profile == r.At(0).auditors[a].profileHash)
      || (exists m: nat :: m < n && Writes(r, m, a, profile) && NoneWrites(r, m + 1, n, a))
  {
    if n > 0 {
      StandingStep(r, n - 1, a);
      WritesIff(r, n - 1, a);
      var e := EffectOn(r, n - 1, a);
      if e.Joined? || e.Updated? {
        assert Writes(r, n - 1, a, e.profile) && NoneWrites(r, n, n, a);
      } else {
        LatestProfile(r, n - 1, a);
        var profile := r.At(n - 1).auditors[a].profileHash;
        if !NoneWrites(r, 0, n - 1, a) {
          var m: nat :| m < n - 1 && Writes(r, m, a, profile) && NoneWrites(r, m + 1, n - 1, a);
          assert NoneWrites(r, m + 1, n, a);
        }
      }
    }
  }
}
