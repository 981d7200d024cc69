/** Rows and proposals shared by the consolidation services: consolidation/consolidation.types.ts in apps/api/src. */
module Consolidation {
  import opened Common
  import opened Processing

  datatype MemoryStatus = SuggestedMemory | ActiveMemory | ArchivedMemory | ExpiredMemory | DeletedMemory

  /** `version` is updatedAt and `text` the normalised title and body. */
  datatype Memory = Memory(
    id: nat,
    version: int,
    text: nat,
    status: MemoryStatus,
    approved: bool,
    expiresAt: Option<int>,
    sensitivity: nat,
    secretLike: bool
  )

  datatype Reason = Expired | ExactDuplicate | SemanticDuplicate | Conflicting | Superseded

  /** `processors` is present when a provider judged the pair. */
  datatype ArchiveCandidate = ArchiveCandidate(
    memory: Memory,
    canonical: Option<Memory>,
    reason: Reason,
    processors: Option<seq<Processor>>
  )

  /** The survivor, when there is one, is not the memory to be archived. */
  predicate Distinguishes(c: ArchiveCandidate) {
    c.canonical.Some? ==> c.canonical.value.id != c.memory.id
  }

  function Targets(cs: seq<ArchiveCandidate>): set<nat> {
    set c | c in cs :: c.memory.id
  }

  function TargetId(c: ArchiveCandidate): nat { c.memory.id }

  predicate DistinctTargets(cs: seq<ArchiveCandidate>) {
    DistinctBy(cs, TargetId)
  }
}
