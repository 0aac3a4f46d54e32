/** The theorems about runs, read off the storage of a node that was started from a genesis
    list and has dispatched any extrinsics since.
  */
module NodeLaws {
  import opened Prelude
  import opened Chain
  import opened Runtime
  import Admission
  import AuditRep
  import Ledgers
  import Replay

  /** As long as every genesis auditor is scored and has no approvals, the node keeps its ledgers
      consistent, its entries well formed and its event log complete. */
  lemma {:induction false} NodeKeepsItsWord(node: Node, entries: seq<(AccountId, AuditorData)>)
    requires node.Valid() && node.history.StartsEmpty()
    requires node.history.At(0).auditors == AuditRep.BuildGenesis(entries)
    requires forall i :: 0 <= i < |entries| ==> entries[i].1.score.Some? && entries[i].1.approvedBy == []
    ensures Ledgers.Consistent(node.Snapshot().exo)
    ensures Admission.WellFormedEntries(node.Snapshot())
    ensures Replay.ReplayFrom(Replay.NOTHING_SEEN, node.events) == Some(Replay.ViewOf(node.Snapshot().exo))
  {
    var r, n := node.history, |node.history.xs|;
    forall a | a in r.At(0).auditors
      ensures Admission.WellFormed(a, r.At(0).auditors[a])
    {
      AuditRep.GenesisEntry(entries, a);
    }
    Ledgers.LedgerInvariant(r, n);
    Admission.AdmissionInvariant(r, n);
    Replay.ReplayRefinesStorage(r, n);
  }
}
