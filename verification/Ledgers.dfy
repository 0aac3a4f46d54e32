/** Reviews, reports, vulnerabilities and challenges as append-only ledgers: what is
    consistent in every reachable state, and what no later step can undo.
  */
module Ledgers {
  import opened Chain
  import opened ExoChanges
  import opened Runs
  import ExoSys

  // ----- Consistency of one state -----

  /** Reports of a review come from distinct auditors, and only a requested review has any. */
  predicate ReportsConsistent(exo: Exo, hash: Hash) {
    var reports := exo.ReportsOf(hash);
    && (reports != [] ==> hash in exo.reviews)
    && forall i, j :: 0 <= i < j < |reports| ==> reports[i].auditor != reports[j].auditor
  }

  /** Challenges of a report come from distinct challengers, none of them its author, and only
      an existing report has any. */
  predicate ChallengesConsistent(exo: Exo, hash: Hash, reportId: ReportId) {
    var challenges := exo.ChallengesOf(hash, reportId);
    && (challenges != [] ==> reportId < |exo.ReportsOf(hash)|)
    && (forall i :: 0 <= i < |challenges| && reportId < |exo.ReportsOf(hash)| ==>
          challenges[i].auditor != exo.ReportsOf(hash)[reportId].auditor)
    && forall i, j :: 0 <= i < j < |challenges| ==> challenges[i].auditor != challenges[j].auditor
  }

  /** A report is in the index of vulnerabilities iff it exists and is not a rejection of the review. */
  predicate IndexConsistent(exo: Exo, hash: Hash, reportId: ReportId) {
    (hash, reportId) in exo.vulnerabilities <==>
      reportId < |exo.ReportsOf(hash)| && exo.ReportsOf(hash)[reportId].kind.Success?
  }

  ghost predicate Consistent(exo: Exo) {
    && (forall hash :: hash in exo.reviews ==> exo.reviews[hash].hash == hash)
    && (forall hash :: ReportsConsistent(exo, hash))
    && (forall hash, reportId :: ChallengesConsistent(exo, hash, reportId))
    && (forall hash, reportId :: IndexConsistent(exo, hash, reportId))
  }

  lemma {:induction false} NoReportBy(reports: Reports, auditor: AccountId)
    ensures ExoSys.HasReportBy(reports, auditor) || forall i :: 0 <= i < |reports| ==> reports[i].auditor != auditor
  {
  }

  lemma {:induction false} NoChallengeBy(challenges: Challenges, auditor: AccountId)
    ensures ExoSys.HasChallengeBy(challenges, auditor)
         || forall i :: 0 <= i < |challenges| ==> challenges[i].auditor != auditor
  {
  }

  lemma {:induction false} ChangedReports(exo: Exo, c: ExoChange, hash: Hash)
    requires Allowed(exo, c) && ReportsConsistent(exo, hash)
    ensures ReportsConsistent(Changed(exo, c), hash)
  {
    if c.FiledInvalid? || c.FiledReport? {
      NoReportBy(exo.ReportsOf(hash), c.auditor);
    }
  }

  lemma {:induction false} ChangedChallenges(exo: Exo, c: ExoChange, hash: Hash, reportId: ReportId)
    requires Allowed(exo, c) && ChallengesConsistent(exo, hash, reportId)
    ensures ChallengesConsistent(Changed(exo, c), hash, reportId)
  {
    if c.Challenged? {
      NoChallengeBy(exo.ChallengesOf(hash, reportId), c.auditor);
    }
  }

  lemma {:induction false} ChangedIndex(exo: Exo, c: ExoChange, hash: Hash, reportId: ReportId)
    requires Allowed(exo, c) && IndexConsistent(exo, hash, reportId)
    ensures IndexConsistent(Changed(exo, c), hash, reportId)
  {
  }

  /** Every reachable state is consistent. */
  lemma {:induction false} LedgerInvariant(r: Run, n: nat)
    requires n <= |r.xs| && r.StartsEmpty()
    ensures Consistent(r.At(n).exo)
  {
    if n > 0 {
      LedgerInvariant(r, n - 1);
      var exo, c := r.At(n - 1).exo, ChangeBy(r.cfg, r.At(n - 1), r.xs[n - 1]);
      assert r.Step(n - 1);
      ExoStep(r.cfg, r.At(n - 1), r.xs[n - 1]);
      ChangedConsistent(exo, c);
    }
  }

  lemma {:induction false} ChangedConsistent(exo: Exo, c: ExoChange)
    requires Allowed(exo, c) && Consistent(exo)
    ensures Consistent(Changed(exo, c))
  {
    forall hash
      ensures ReportsConsistent(Changed(exo, c), hash)
    {
      ChangedReports(exo, c, hash);
    }
    forall hash, reportId
      ensures ChallengesConsistent(Changed(exo, c), hash, reportId)
      ensures IndexConsistent(Changed(exo, c), hash, reportId)
    {
      ChangedChallenges(exo, c, hash, reportId);
      ChangedIndex(exo, c, hash, reportId);
    }
  }

  // ----- Growth over a run -----

  /** A challenge keeps its author and demands, and a closed one stays closed. */
  predicate ChallengeKept(before: Challenge, after: Challenge) {
    && after.auditor == before.auditor
    && after.demands == before.demands
    && (before.state != Pending ==> after.state != Pending)
  }

  predicate ChallengesGrow(before: Challenges, after: Challenges) {
    && |before| <= |after|
    && forall i :: 0 <= i < |before| ==> ChallengeKept(before[i], after[i])
  }

  /** Reviews and vulnerability lists never change once stored; report lists are extended at
      the end; of a challenge only the state changes. */
  ghost predicate Grows(before: Exo, after: Exo) {
    && (forall hash :: hash in before.reviews ==> hash in after.reviews && after.reviews[hash] == before.reviews[hash])
    && (forall hash :: before.ReportsOf(hash) <= after.ReportsOf(hash))
    && (forall key :: key in before.vulnerabilities ==>
          key in after.vulnerabilities && after.vulnerabilities[key] == before.vulnerabilities[key])
    && (forall hash, reportId ::
          ChallengesGrow(before.ChallengesOf(hash, reportId), after.ChallengesOf(hash, reportId)))
  }

  lemma {:induction false} ChangedGrows(exo: Exo, c: ExoChange)
    requires Allowed(exo, c) && Consistent(exo)
    ensures Grows(exo, Changed(exo, c))
  {
    match c
    case FiledReport(hash, _, _) =>
      assert IndexConsistent(exo, hash, |exo.ReportsOf(hash)|);
    case _ =>
  }

  lemma {:induction false} GrowsTransitive(a: Exo, b: Exo, c: Exo)
    requires Grows(a, b) && Grows(b, c)
    ensures Grows(a, c)
  {
  }

  /** From any point of a run to any later one the ledgers and the event log only grow. */
  lemma {:induction false} AppendOnly(r: Run, m: nat, n: nat)
    requires m <= n <= |r.xs| && r.StartsEmpty()
    ensures Grows(r.At(m).exo, r.At(n).exo) && r.At(m).events <= r.At(n).events
    decreases n
  {
    if m < n {
      AppendOnly(r, m, n - 1);
      LedgerInvariant(r, n - 1);
      var c := ChangeBy(r.cfg, r.At(n - 1), r.xs[n - 1]);
      assert r.Step(n - 1);
      ExoStep(r.cfg, r.At(n - 1), r.xs[n - 1]);
      ChangedGrows(r.At(n - 1).exo, c);
      GrowsTransitive(r.At(m).exo, r.At(n - 1).exo, r.At(n).exo);
    }
  }
}
