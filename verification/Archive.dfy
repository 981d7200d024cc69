/**
 * Archiving by consolidation as atomic steps: consolidation/consolidation-writer.service.ts,
 * memory-suggestions/archive-suggestion-applier.ts and claim-suggestion.ts in apps/api/src.
 */
module Archive {
  import opened Common
  import opened Processing
  import opened Consolidation

  datatype SuggestionStatus = QueuedForReview | Applied | Rejected

  /** A consolidation suggestion; the versions are those in its source metadata. */
  datatype Suggestion = Suggestion(
    targetId: nat,
    targetVersion: Option<int>,
    canonicalId: Option<nat>,
    canonicalVersion: Option<int>,
    reason: Reason,
    status: SuggestionStatus
  )

  /** One archive action: which memory, in favour of which survivor, and through which suggestion. */
  datatype Archival = Archival(
    target: Memory,
    canonicalId: Option<nat>,
    canonicalVersion: Option<int>,
    reason: Reason,
    suggestionId: Option<nat>
  )

  /**
   * The owner's rows. `revisions` remembers every content a version stamp was given to and `archivals`
   * is the log of MEMORY_ARCHIVED events; neither is read by a step.
   */
  datatype Vault = Vault(
    memories: map<nat, Memory>,
    suggestions: map<nat, Suggestion>,
    selected: System,
    env: Env,
    now: int,
    revisions: map<(nat, int), Memory>,
    archivals: seq<Archival>
  )

  /** Write a row under a new version stamp; every stamp is later than all earlier ones. */
  function Stamp(v: Vault, m: Memory): Vault {
    var row := m.(version := v.now + 1);
    v.(memories := v.memories[m.id := row], revisions := v.revisions[(m.id, row.version) := row], now := v.now + 1)
  }

  // ---------------------------------------------------------------- revalidation and archiving

  /** The row a candidate was made from is still ACTIVE at that version. */
  predicate StillAt(v: Vault, expected: Memory) {
    && expected.id in v.memories
    && v.memories[expected.id].status == ActiveMemory
    && v.memories[expected.id].version == expected.version
  }

  predicate MaySurvive(v: Vault, id: nat) {
    id in v.memories && v.memories[id].status == ActiveMemory && v.memories[id].approved && Unexpired(v.memories[id].expiresAt, v.now)
  }

  predicate SurvivorAmong(v: Vault, expected: Memory, c: ArchiveCandidate) {
    c.canonical.Some? && c.canonical.value.id == expected.id ==> MaySurvive(v, expected.id)
  }

  predicate StillValid(v: Vault, c: ArchiveCandidate) {
    && StillAt(v, c.memory) && SurvivorAmong(v, c.memory, c)
    && (c.canonical.Some? ==> StillAt(v, c.canonical.value) && MaySurvive(v, c.canonical.value.id))
    && (c.processors.Some? ==> Check(v.env, Scope.Consolidation, v.selected, c.processors.value, false).Allowed?)
  }

  function ArchivedStatus(reason: Reason): MemoryStatus {
    if reason == Expired then ExpiredMemory else ArchivedMemory
  }

  function ArchiveRow(v: Vault, id: nat, archival: Archival): Vault
    requires id in v.memories
  {
    Stamp(v, v.memories[id].(id := id, status := ArchivedStatus(archival.reason))).(archivals := v.archivals + [archival])
  }

  function VersionOf(m: Option<Memory>): Option<int> {
    if m.Some? then Some(m.value.version) else None
  }

  function CanonicalId(c: ArchiveCandidate): Option<nat> {
    if c.canonical.Some? then Some(c.canonical.value.id) else None
  }

  /** `archiveCandidate`. */
  function AutoArchiveStep(v: Vault, c: ArchiveCandidate): Vault {
    if StillValid(v, c) then
      ArchiveRow(v, c.memory.id, Archival(v.memories[c.memory.id], CanonicalId(c), VersionOf(c.canonical), c.reason, None))
    else v
  }

  function SuggestionFor(c: ArchiveCandidate): Suggestion {
    Suggestion(c.memory.id, Some(c.memory.version), CanonicalId(c), VersionOf(c.canonical), c.reason, QueuedForReview)
  }

  /** `createArchiveSuggestion`. */
  function SuggestStep(v: Vault, id: nat, c: ArchiveCandidate, queuedTargets: set<nat>): Vault {
    if c.memory.id !in queuedTargets && StillValid(v, c) then v.(suggestions := v.suggestions[id := SuggestionFor(c)]) else v
  }

  // ---------------------------------------------------------------- review

  predicate TargetCurrent(v: Vault, s: Suggestion) {
    && s.targetId in v.memories
    && (s.targetVersion.Some? ==>
          v.memories[s.targetId].status == ActiveMemory && v.memories[s.targetId].version == s.targetVersion.value)
  }

  predicate SurvivorCurrent(v: Vault, s: Suggestion) {
    s.canonicalId.Some? ==>
      && MaySurvive(v, s.canonicalId.value)
      && s.canonicalId.value != s.targetId
      && (s.canonicalVersion.Some? ==> v.memories[s.canonicalId.value].version == s.canonicalVersion.value)
  }

  predicate Applicable(v: Vault, id: nat) {
    && id in v.suggestions && v.suggestions[id].status == QueuedForReview
    && TargetCurrent(v, v.suggestions[id]) && SurvivorCurrent(v, v.suggestions[id])
  }

  /** `applyArchiveSuggestion`: the claim and the archive commit together or not at all. */
  function ApplySuggestionStep(v: Vault, id: nat): Vault {
    if Applicable(v, id) then
      var s := v.suggestions[id];
      ArchiveRow(v.(suggestions := v.suggestions[id := s.(status := Applied)]), s.targetId,
                 Archival(v.memories[s.targetId], s.canonicalId, s.canonicalVersion, s.reason, Some(id)))
    else v
  }

  function RejectStep(v: Vault, id: nat): Vault {
    if id in v.suggestions && v.suggestions[id].status == QueuedForReview then
      v.(suggestions := v.suggestions[id := v.suggestions[id].(status := Rejected)])
    else v
  }

  // ---------------------------------------------------------------- steps

  datatype Step =
    | AddMemory(m: Memory)
    | EditMemory(m: Memory)
    | SelectSystem(system: System)
    | AutoArchive(c: ArchiveCandidate)
    | Suggest(id: nat, c: ArchiveCandidate, queuedTargets: set<nat>)
    | ApplySuggestion(id: nat)
    | Reject(id: nat)
    | Tick(ms: nat)

  /** A snapshot some earlier read returned. */
  predicate Snapshot(v: Vault, m: Memory) {
    (m.id, m.version) in v.revisions && v.revisions[(m.id, m.version)] == m
  }

  /** What modules Duplicates and Judge promise of the candidates they produce. */
  predicate Genuine(v: Vault, c: ArchiveCandidate) {
    && Snapshot(v, c.memory)
    && (c.canonical.Some? ==> Snapshot(v, c.canonical.value))
    && Distinguishes(c)
    && (c.reason == Expired <==> c.canonical.None?)
    && (c.reason == ExactDuplicate ==> c.memory.text == c.canonical.value.text)
  }

  /** Ids are fresh, edits name an existing row, and candidates come from the producers. */
  predicate Legal(v: Vault, step: Step) {
    match step
    case AddMemory(m) => m.id !in v.memories
    case EditMemory(m) => m.id in v.memories
    case AutoArchive(c) => Genuine(v, c)
    case Suggest(id, c, _) => Genuine(v, c) && id !in v.suggestions
    case _ => true
  }

  function Apply(v: Vault, step: Step): Vault {
    match step
    case AddMemory(m) => Stamp(v, m)
    case EditMemory(m) => Stamp(v, m)
    case SelectSystem(system) => v.(selected := system)
    case AutoArchive(c) => AutoArchiveStep(v, c)
    case Suggest(id, c, queuedTargets) => SuggestStep(v, id, c, queuedTargets)
    case ApplySuggestion(id) => ApplySuggestionStep(v, id)
    case Reject(id) => RejectStep(v, id)
    case Tick(ms) => v.(now := v.now + ms)
  }

  predicate Empty(v: Vault) {
    v.memories == map[] && v.suggestions == map[] && v.revisions == map[] && v.archivals == []
  }

  /** Any interleaving of consolidation, review, owner edits and clock ticks. */
  ghost predicate Run(states: seq<Vault>, steps: seq<Step>) {
    && |states| == |steps| + 1
    && Empty(states[0])
    && forall i :: 0 <= i < |steps| ==> Legal(states[i], steps[i]) && states[i + 1] == Apply(states[i], steps[i])
  }
}
