/** The three producers of archive candidates promise what the archive steps assume of them. */
module Producers {
  import opened Common
  import opened Processing
  import opened Consolidation
  import Archive
  import Duplicates
  import Judge

  /** Candidates made of rows that were read are genuine, whoever proposes them and whatever the provider says. */
  lemma ExpiredAreGenuine(v: Archive.Vault, memories: seq<Memory>, now: int)
    requires forall m :: m in memories ==> Archive.Snapshot(v, m)
    ensures forall c :: c in Duplicates.FindExpiredCandidates(memories, now) ==> Archive.Genuine(v, c)
  {
  }

  lemma DuplicatesAreGenuine(v: Archive.Vault, c: ArchiveCandidate)
    requires Duplicates.ExactDuplicateOf(c)
    requires Archive.Snapshot(v, c.memory) && Archive.Snapshot(v, c.canonical.value)
    ensures Archive.Genuine(v, c)
  {
  }

  lemma JudgedAreGenuine(v: Archive.Vault, decisions: seq<Judge.Decision>, selected: seq<Judge.Pair>, processors: seq<Processor>)
    requires forall p :: p in selected ==> Archive.Snapshot(v, p.recent) && Archive.Snapshot(v, p.candidate)
    ensures forall c :: c in Judge.Picks(decisions, decisions, selected, processors, {}, {}) ==> Archive.Genuine(v, c)
  {
    hide Judge.Picks, Judge.Occurrences, Archive.Snapshot;
    Judge.ProposalsSound(decisions, selected, processors);
    forall c | c in Judge.Picks(decisions, decisions, selected, processors, {}, {})
      ensures Archive.Genuine(v, c)
    {
      assert Judge.ComesFromPair(c, decisions, selected, processors);
      var d :| d in decisions && Judge.Usable(d, decisions, selected) && Judge.Follows(c, d, selected[d.pairId], processors);
      assert selected[d.pairId] in selected;
    }
  }
}
