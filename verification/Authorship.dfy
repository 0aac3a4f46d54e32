/** Every stored report and challenge was filed by a qualified auditor in some earlier step. */
module Authorship {
  import opened Chain
  import opened ExoChanges
  import opened Ledgers
  import opened Runs
  import AuditRep

  /** Step m filed report i of the review, as it is stored after n steps: at step m the author
      had the score that the review asked for, then and now. */
  ghost predicate ReportFiledAt(r: Run, n: nat, m: nat, hash: Hash, i: nat)
    requires m < n <= |r.xs| && i < |r.At(n).exo.ReportsOf(hash)|
  {
    var exo := r.At(n).exo;
    var report := exo.ReportsOf(hash)[i];
    && |r.At(m).exo.ReportsOf(hash)| == i
    && hash in exo.reviews
    && AuditRep.HasEnoughRank(r.At(m), report.auditor, exo.reviews[hash].minAuditorScore)
    && match report.kind
       case Invalid => r.Does(m, report.auditor, FileInvalid(hash))
       case Success =>
         && (hash, i) in exo.vulnerabilities
         && r.Does(m, report.auditor, FileReport(hash, exo.vulnerabilities[(hash, i)]))
  }

  ghost predicate ChallengeFiledAt(r: Run, n: nat, m: nat, hash: Hash, reportId: ReportId, i: nat)
    requires m < n <= |r.xs| && i < |r.At(n).exo.ChallengesOf(hash, reportId)|
  {
    var exo := r.At(n).exo;
    var challenge := exo.ChallengesOf(hash, reportId)[i];
    && |r.At(m).exo.ChallengesOf(hash, reportId)| == i
    && hash in exo.reviews
    && AuditRep.HasEnoughRank(r.At(m), challenge.auditor, exo.reviews[hash].minAuditorScore)
    && r.Does(m, challenge.auditor, ChallengeReport(hash, reportId, challenge.demands))
  }

  /** Filing calls test the score against the review. */
  lemma {:induction false} FilingNeedsRank(cfg: Config, s: State, x: Extrinsic)
    ensures
      match ChangeBy(cfg, s, x)
      case FiledInvalid(hash, auditor) =>
        && x == Extrinsic(Signed(auditor), FileInvalid(hash))
        && hash in s.exo.reviews && AuditRep.HasEnoughRank(s, auditor, s.exo.reviews[hash].minAuditorScore)
      case FiledReport(hash, auditor, found) =>
        && x == Extrinsic(Signed(auditor), FileReport(hash, found))
        && hash in s.exo.reviews && AuditRep.HasEnoughRank(s, auditor, s.exo.reviews[hash].minAuditorScore)
      case Challenged(hash, reportId, auditor, demands) =>
        && x == Extrinsic(Signed(auditor), ChallengeReport(hash, reportId, demands))
        && hash in s.exo.reviews && AuditRep.HasEnoughRank(s, auditor, s.exo.reviews[hash].minAuditorScore)
      case _ => true
  {
  }

  lemma {:induction false} NewReport(r: Run, n: nat, hash: Hash, i: nat)
    requires n < |r.xs|
    requires |r.At(n).exo.ReportsOf(hash)| <= i < |r.At(n + 1).exo.ReportsOf(hash)|
    ensures ReportFiledAt(r, n + 1, n, hash, i)
  {
    assert r.Step(n);
    ExoStep(r.cfg, r.At(n), r.xs[n]);
    FilingNeedsRank(r.cfg, r.At(n), r.xs[n]);
  }

  lemma {:induction false} ReportStays(r: Run, n: nat, m: nat, hash: Hash, i: nat)
    requires m < n < |r.xs| && i < |r.At(n).exo.ReportsOf(hash)|
    requires Grows(r.At(n).exo, r.At(n + 1).exo)
    requires ReportFiledAt(r, n, m, hash, i)
    ensures i < |r.At(n + 1).exo.ReportsOf(hash)| && ReportFiledAt(r, n + 1, m, hash, i)
  {
  }

  /** Every stored report was filed in some step by an auditor with the required score. */
  lemma {:induction false} QualifiedReport(r: Run, n: nat, hash: Hash, i: nat)
    requires n <= |r.xs| && r.StartsEmpty()
    requires i < |r.At(n).exo.ReportsOf(hash)|
    ensures exists m: nat :: m < n && ReportFiledAt(r, n, m, hash, i)
  {
    if i < |r.At(n - 1).exo.ReportsOf(hash)| {
      QualifiedReport(r, n - 1, hash, i);
      var m: nat :| m < n - 1 && ReportFiledAt(r, n - 1, m, hash, i);
      AppendOnly(r, n - 1, n);
      ReportStays(r, n - 1, m, hash, i);
    } else {
      NewReport(r, n - 1, hash, i);
    }
  }

  lemma {:induction false} NewChallenge(r: Run, n: nat, hash: Hash, reportId: ReportId, i: nat)
    requires n < |r.xs|
    requires |r.At(n).exo.ChallengesOf(hash, reportId)| <= i < |r.At(n + 1).exo.ChallengesOf(hash, reportId)|
    ensures ChallengeFiledAt(r, n + 1, n, hash, reportId, i)
  {
    assert r.Step(n);
    ExoStep(r.cfg, r.At(n), r.xs[n]);
    FilingNeedsRank(r.cfg, r.At(n), r.xs[n]);
  }

  lemma {:induction false} ChallengeStays(r: Run, n: nat, m: nat, hash: Hash, reportId: ReportId, i: nat)
    requires m < n < |r.xs| && i < |r.At(n).exo.ChallengesOf(hash, reportId)|
    requires Grows(r.At(n).exo, r.At(n + 1).exo)
    requires ChallengeFiledAt(r, n, m, hash, reportId, i)
    ensures i < |r.At(n + 1).exo.ChallengesOf(hash, reportId)| && ChallengeFiledAt(r, n + 1, m, hash, reportId, i)
  {
  }

  /** Every stored challenge was filed in some step by an auditor with the required score. */
  lemma {:induction false} QualifiedChallenge(r: Run, n: nat, hash: Hash, reportId: ReportId, i: nat)
    requires n <= |r.xs| && r.StartsEmpty()
    requires i < |r.At(n).exo.ChallengesOf(hash, reportId)|
    ensures exists m: nat :: m < n && ChallengeFiledAt(r, n, m, hash, reportId, i)
  {
    if i < |r.At(n - 1).exo.ChallengesOf(hash, reportId)| {
      QualifiedChallenge(r, n - 1, hash, reportId, i);
      var m: nat :| m < n - 1 && ChallengeFiledAt(r, n - 1, m, hash, reportId, i);
      AppendOnly(r, n - 1, n);
      ChallengeStays(r, n - 1, m, hash, reportId, i);
    } else {
      NewChallenge(r, n - 1, hash, reportId, i);
    }
  }
}
