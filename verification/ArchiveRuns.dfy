/** What every interleaving of consolidation, review and owner edits keeps. */
module ArchiveRuns {
  import opened Common
  import opened Processing
  import opened Consolidation
  import opened Archive

  // ---------------------------------------------------------------- versions

  /** Rows are what their version stamp was given to, and no stamp lies in the future. */
  predicate VersionsOk(v: Vault) {
    && (forall id :: id in v.memories ==> v.memories[id].id == id && Snapshot(v, v.memories[id]))
    && (forall key :: key in v.revisions ==> v.revisions[key].id == key.0 && v.revisions[key].version == key.1 <= v.now)
  }

  /** A queued, applied or rejected suggestion was made from snapshots that justify its reason. */
  predicate Founded(v: Vault, s: Suggestion) {
    && s.targetVersion.Some? && (s.targetId, s.targetVersion.value) in v.revisions
    && (s.canonicalId.Some? <==> s.canonicalVersion.Some?)
    && (s.reason == Expired <==> s.canonicalId.None?)
    && (s.canonicalId.Some? ==>
          && s.canonicalId.value != s.targetId
          && (s.canonicalId.value, s.canonicalVersion.value) in v.revisions
          && (s.reason == ExactDuplicate ==>
                v.revisions[(s.targetId, s.targetVersion.value)].text == v.revisions[(s.canonicalId.value, s.canonicalVersion.value)].text))
  }

  predicate SuggestionsOk(v: Vault) {
    forall id :: id in v.suggestions ==> Founded(v, v.suggestions[id])
  }

  lemma StampKeeps(v: Vault, m: Memory)
    requires VersionsOk(v) && SuggestionsOk(v)
    ensures VersionsOk(Stamp(v, m)) && SuggestionsOk(Stamp(v, m))
    ensures forall key :: key in v.revisions ==> key in Stamp(v, m).revisions && Stamp(v, m).revisions[key] == v.revisions[key]
  {
  }

  lemma ArchiveRowKeeps(v: Vault, id: nat, archival: Archival)
    requires VersionsOk(v) && SuggestionsOk(v) && id in v.memories
    ensures VersionsOk(ArchiveRow(v, id, archival)) && SuggestionsOk(ArchiveRow(v, id, archival))
  {
  }

  lemma SetSuggestion(v: Vault, id: nat, s: Suggestion)
    requires VersionsOk(v) && SuggestionsOk(v) && Founded(v, s)
    ensures VersionsOk(v.(suggestions := v.suggestions[id := s])) && SuggestionsOk(v.(suggestions := v.suggestions[id := s]))
  {
  }

  lemma GenuineFounds(v: Vault, c: ArchiveCandidate)
    requires Genuine(v, c)
    ensures Founded(v, SuggestionFor(c))
  {
  }

  lemma StatusFounded(v: Vault, s: Suggestion, status: SuggestionStatus)
    requires Founded(v, s)
    ensures Founded(v, s.(status := status))
  {
  }

  lemma StepKeepsVersions(v: Vault, step: Step)
    requires VersionsOk(v) && SuggestionsOk(v) && Legal(v, step)
    ensures VersionsOk(Apply(v, step)) && SuggestionsOk(Apply(v, step))
  {
    hide Stamp, Founded, StillValid, Genuine, ArchiveRow, TargetCurrent, SurvivorCurrent, VersionsOk;
    match step
    case AddMemory(m) => StampKeeps(v, m);
    case EditMemory(m) => StampKeeps(v, m);
    case AutoArchive(c) =>
      if StillValid(v, c) {
        ValidTarget(v, c);
        ArchiveRowKeeps(v, c.memory.id, Archival(v.memories[c.memory.id], CanonicalId(c), VersionOf(c.canonical), c.reason, None));
      }
    case Suggest(id, c, queued) =>
      GenuineFounds(v, c);
      SetSuggestion(v, id, SuggestionFor(c));
    case ApplySuggestion(id) =>
      if Applicable(v, id) {
        var s := v.suggestions[id];
        StatusFounded(v, s, Applied);
        SetSuggestion(v, id, s.(status := Applied));
        CurrentTarget(v, s);
        ArchiveRowKeeps(v.(suggestions := v.suggestions[id := s.(status := Applied)]), s.targetId,
          Archival(v.memories[s.targetId], s.canonicalId, s.canonicalVersion, s.reason, Some(id)));
      }
    case Reject(id) =>
      if id in v.suggestions && v.suggestions[id].status == QueuedForReview {
        StatusFounded(v, v.suggestions[id], Rejected);
        SetSuggestion(v, id, v.suggestions[id].(status := Rejected));
      }
    case SelectSystem(system) => QuietStep(v, v.(selected := system));
    case Tick(ms) => QuietStep(v, v.(now := v.now + ms));
  }

  lemma ValidTarget(v: Vault, c: ArchiveCandidate)
    requires StillValid(v, c)
    ensures c.memory.id in v.memories
  {
  }

  lemma CurrentTarget(v: Vault, s: Suggestion)
    requires TargetCurrent(v, s)
    ensures s.targetId in v.memories
  {
  }

  lemma QuietStep(v: Vault, w: Vault)
    requires VersionsOk(v) && SuggestionsOk(v)
    requires w.memories == v.memories && w.suggestions == v.suggestions && w.revisions == v.revisions && w.now >= v.now
    ensures VersionsOk(w) && SuggestionsOk(w)
  {
  }

  // ---------------------------------------------------------------- each proposal at most once

  /** How many archive actions went through suggestion `id`. */
  function Through(archivals: seq<Archival>, id: nat): nat {
    if archivals == [] then 0
    else (if archivals[|archivals| - 1].suggestionId == Some(id) then 1 else 0) + Through(archivals[..|archivals| - 1], id)
  }

  predicate OnceOk(v: Vault, id: nat) {
    Through(v.archivals, id) == if id in v.suggestions && v.suggestions[id].status == Applied then 1 else 0
  }

  lemma StepKeepsOnce(v: Vault, step: Step, id: nat)
    requires OnceOk(v, id) && Legal(v, step)
    ensures OnceOk(Apply(v, step), id)
  {
  }

  ghost predicate Inv(v: Vault) {
    VersionsOk(v) && SuggestionsOk(v) && forall id: nat :: OnceOk(v, id)
  }

  lemma {:induction false} Reachable(states: seq<Vault>, steps: seq<Step>, k: nat)
    requires Run(states, steps) && k < |states|
    ensures Inv(states[k])
  {
    hide Apply, Legal, VersionsOk, SuggestionsOk, OnceOk;
    if k == 0 {
      EmptyOk(states[0]);
    } else {
      Reachable(states, steps, k - 1);
      StepKeepsVersions(states[k - 1], steps[k - 1]);
      forall id: nat
        ensures OnceOk(states[k], id)
      {
        StepKeepsOnce(states[k - 1], steps[k - 1], id);
      }
    }
  }

  lemma EmptyOk(v: Vault)
    requires Empty(v)
    ensures Inv(v)
  {
  }

  // ---------------------------------------------------------------- what an archive action needs and leaves

  predicate Archives(v: Vault, step: Step) {
    Apply(v, step).archivals != v.archivals
  }

  /** The row that is archived was ACTIVE and gets a new version, and the survivor, another row, was and stays live at its recorded version. */
  predicate Justified(v: Vault, w: Vault, a: Archival) {
    && a.target.id in v.memories && v.memories[a.target.id] == a.target && a.target.status == ActiveMemory
    && a.target.id in w.memories && w.memories[a.target.id].status == (if a.reason == Expired then ExpiredMemory else ArchivedMemory)
    && w.memories[a.target.id].version > a.target.version
    && (a.reason == Expired <==> a.canonicalId.None?)
    && (a.canonicalId.Some? ==>
          && a.canonicalId.value != a.target.id
          && MaySurvive(v, a.canonicalId.value)
          && a.canonicalVersion == Some(v.memories[a.canonicalId.value].version)
          && a.canonicalId.value in w.memories && w.memories[a.canonicalId.value] == v.memories[a.canonicalId.value]
          && (a.reason == ExactDuplicate ==> v.memories[a.canonicalId.value].text == a.target.text))
  }

  lemma AutoArchiveJustified(v: Vault, c: ArchiveCandidate)
    requires VersionsOk(v) && Genuine(v, c) && StillValid(v, c)
    ensures Justified(v, AutoArchiveStep(v, c), Archival(v.memories[c.memory.id], CanonicalId(c), VersionOf(c.canonical), c.reason, None))
    ensures v.memories[c.memory.id] == c.memory
  {
  }

  lemma ReviewedArchiveJustified(v: Vault, id: nat)
    requires VersionsOk(v) && SuggestionsOk(v) && Applicable(v, id)
    ensures var s := v.suggestions[id];
            Justified(v, ApplySuggestionStep(v, id), Archival(v.memories[s.targetId], s.canonicalId, s.canonicalVersion, s.reason, Some(id)))
  {
  }

  /** Every archive action of every run is justified in the state it happens in. */
  lemma ArchivesJustified(states: seq<Vault>, steps: seq<Step>, k: nat)
    requires Run(states, steps) && k < |steps| && Archives(states[k], steps[k])
    ensures |states[k + 1].archivals| == |states[k].archivals| + 1
    ensures Justified(states[k], states[k + 1], states[k + 1].archivals[|states[k].archivals|])
  {
    hide StillValid, Genuine, TargetCurrent, SurvivorCurrent, Justified, VersionsOk, SuggestionsOk, OnceOk;
    Reachable(states, steps, k);
    match steps[k]
    case AutoArchive(c) => AutoArchiveJustified(states[k], c);
    case ApplySuggestion(id) => ReviewedArchiveJustified(states[k], id);
    case _ =>
  }

  /** A judgment made by a provider the owner has since deselected is neither applied nor proposed. */
  lemma ProviderSwitchBlocksArchive(v: Vault, c: ArchiveCandidate, worker: System, id: nat, queuedTargets: set<nat>)
    requires c.processors == Some(Processors(Scope.Consolidation, worker)) && v.selected != worker
    ensures AutoArchiveStep(v, c) == v && SuggestStep(v, id, c, queuedTargets) == v
  {
    CheckTracksSelection(v.env, Scope.Consolidation, v.selected, worker, false);
  }

  // ---------------------------------------------------------------- stale proposals

  /** The row has moved on from a version it once had. */
  predicate Moved(v: Vault, id: nat, version: int) {
    version <= v.now && (id in v.memories ==> v.memories[id].version != version)
  }

  lemma MovedStays(v: Vault, step: Step, id: nat, version: int)
    requires VersionsOk(v) && Legal(v, step) && Moved(v, id, version)
    requires (id, version) in v.revisions
    ensures Moved(Apply(v, step), id, version)
  {
    hide StillValid, Genuine, TargetCurrent, SurvivorCurrent, MaySurvive;
  }

  lemma {:induction false} MovedForever(states: seq<Vault>, steps: seq<Step>, i: nat, j: nat, id: nat, version: int)
    requires Run(states, steps) && i <= j < |states|
    requires Moved(states[i], id, version) && (id, version) in states[i].revisions
    ensures Moved(states[j], id, version) && (id, version) in states[j].revisions
    decreases j
  {
    hide Apply, Legal, Moved, OnceOk, VersionsOk, SuggestionsOk;
    if i < j {
      MovedForever(states, steps, i, j - 1, id, version);
      Reachable(states, steps, j - 1);
      MovedStays(states[j - 1], steps[j - 1], id, version);
      RevisionsGrow(states[j - 1], steps[j - 1], id, version);
    }
  }

  lemma RevisionsGrow(v: Vault, step: Step, id: nat, version: int)
    requires (id, version) in v.revisions
    ensures (id, version) in Apply(v, step).revisions
  {
  }

  /** The target or the survivor of a suggestion is no longer at the recorded version. */
  predicate Stale(v: Vault, s: Suggestion) {
    || (s.targetVersion.Some? && Moved(v, s.targetId, s.targetVersion.value))
    || (s.canonicalId.Some? && s.canonicalVersion.Some? && Moved(v, s.canonicalId.value, s.canonicalVersion.value))
  }

  predicate StaleCandidate(v: Vault, c: ArchiveCandidate) {
    Moved(v, c.memory.id, c.memory.version) ||
    (c.canonical.Some? && Moved(v, c.canonical.value.id, c.canonical.value.version))
  }

  /** A suggestion's proposal never changes; only its status does, and only once. */
  lemma SuggestionStays(v: Vault, step: Step, id: nat)
    requires id in v.suggestions && Legal(v, step)
    ensures id in Apply(v, step).suggestions
    ensures Apply(v, step).suggestions[id].(status := QueuedForReview) == v.suggestions[id].(status := QueuedForReview)
    ensures v.suggestions[id].status != QueuedForReview ==> Apply(v, step).suggestions[id] == v.suggestions[id]
  {
    hide StillValid, Genuine, TargetCurrent, SurvivorCurrent, MaySurvive;
  }

  lemma {:induction false} SuggestionStaysForever(states: seq<Vault>, steps: seq<Step>, i: nat, j: nat, id: nat)
    requires Run(states, steps) && i <= j < |states| && id in states[i].suggestions
    ensures id in states[j].suggestions
    ensures states[j].suggestions[id].(status := QueuedForReview) == states[i].suggestions[id].(status := QueuedForReview)
    ensures states[i].suggestions[id].status != QueuedForReview ==> states[j].suggestions[id] == states[i].suggestions[id]
    decreases j
  {
    hide Apply, Legal;
    if i < j {
      SuggestionStaysForever(states, steps, i, j - 1, id);
      SuggestionStays(states[j - 1], steps[j - 1], id);
    }
  }

  /**
   * A proposal whose target or survivor has changed can never take effect again: at every later moment
   * applying it changes nothing.
   */
  lemma StaleNeverApplies(states: seq<Vault>, steps: seq<Step>, i: nat, j: nat, id: nat)
    requires Run(states, steps) && i <= j < |states|
    requires id in states[i].suggestions && Stale(states[i], states[i].suggestions[id])
    ensures Apply(states[j], Step.ApplySuggestion(id)) == states[j]
  {
    hide OnceOk, VersionsOk, Moved, Legal, MaySurvive;
    Reachable(states, steps, i);
    var s := states[i].suggestions[id];
    assert Founded(states[i], s) by { FoundedAt(states[i], id); }
    SuggestionStaysForever(states, steps, i, j, id);
    if s.targetVersion.Some? && Moved(states[i], s.targetId, s.targetVersion.value) {
      MovedForever(states, steps, i, j, s.targetId, s.targetVersion.value);
      MovedTarget(states[j], states[j].suggestions[id]);
    } else {
      MovedForever(states, steps, i, j, s.canonicalId.value, s.canonicalVersion.value);
      MovedSurvivor(states[j], states[j].suggestions[id]);
    }
  }

  lemma FoundedAt(v: Vault, id: nat)
    requires SuggestionsOk(v) && id in v.suggestions
    ensures Founded(v, v.suggestions[id])
  {
  }

  lemma MovedTarget(v: Vault, s: Suggestion)
    requires s.targetVersion.Some? && Moved(v, s.targetId, s.targetVersion.value)
    ensures !TargetCurrent(v, s)
  {
  }

  lemma MovedSurvivor(v: Vault, s: Suggestion)
    requires s.canonicalId.Some? && s.canonicalVersion.Some? && Moved(v, s.canonicalId.value, s.canonicalVersion.value)
    ensures !SurvivorCurrent(v, s)
  {
  }

  /** The same for a candidate a running consolidation still holds. */
  lemma StaleCandidateNeverApplies(states: seq<Vault>, steps: seq<Step>, i: nat, j: nat, c: ArchiveCandidate)
    requires Run(states, steps) && i <= j < |states|
    requires Genuine(states[i], c) && StaleCandidate(states[i], c)
    ensures Apply(states[j], AutoArchive(c)) == states[j]
    ensures forall id, queued :: Apply(states[j], Suggest(id, c, queued)) == states[j]
  {
    hide Legal;
    if Moved(states[i], c.memory.id, c.memory.version) {
      MovedForever(states, steps, i, j, c.memory.id, c.memory.version);
    } else {
      MovedForever(states, steps, i, j, c.canonical.value.id, c.canonical.value.version);
    }
  }

  /** Each suggestion takes effect at most once, and exactly the applied ones did. */
  lemma AppliedAtMostOnce(states: seq<Vault>, steps: seq<Step>, k: nat, id: nat)
    requires Run(states, steps) && k < |states|
    ensures Through(states[k].archivals, id) <= 1
    ensures Through(states[k].archivals, id) == 1 <==> id in states[k].suggestions && states[k].suggestions[id].status == Applied
  {
    hide VersionsOk, SuggestionsOk, Through;
    Reachable(states, steps, k);
    assert OnceOk(states[k], id);
  }

  // ---------------------------------------------------------------- duplicate classes

  /** Some approved ACTIVE memory says `text`. */
  predicate Said(v: Vault, text: nat) {
    exists id :: id in v.memories && Says(v.memories[id], text)
  }

  predicate Says(m: Memory, text: nat) {
    m.status == ActiveMemory && m.approved && m.text == text
  }

  /** Anything consolidation and review may do about exact duplicates, provider switches and time. */
  predicate DuplicateWork(v: Vault, step: Step) {
    match step
    case AddMemory(_) => true
    case EditMemory(_) => false
    case AutoArchive(c) => c.reason == ExactDuplicate
    case ApplySuggestion(id) => id in v.suggestions ==> v.suggestions[id].reason == ExactDuplicate
    case _ => true
  }

  lemma DuplicateWorkKeepsSaid(states: seq<Vault>, steps: seq<Step>, k: nat, text: nat)
    requires Run(states, steps) && k < |steps| && DuplicateWork(states[k], steps[k]) && Said(states[k], text)
    ensures Said(states[k + 1], text)
  {
    hide StillValid, Genuine, TargetCurrent, SurvivorCurrent, VersionsOk, SuggestionsOk, OnceOk;
    var v, w := states[k], states[k + 1];
    var id :| id in v.memories && Says(v.memories[id], text);
    if Archives(v, steps[k]) {
      ArchivesJustified(states, steps, k);
      var a := w.archivals[|v.archivals|];
      if id in w.memories && w.memories[id] == v.memories[id] {
        assert Says(w.memories[id], text);
      } else {
        assert Says(w.memories[a.canonicalId.value], text) by {
          TargetRow(states, steps, k, id);
        }
      }
    } else {
      OtherRowsStay(v, steps[k], id);
      assert Says(w.memories[id], text);
    }
  }

  /** The only row an archive action changes is its target. */
  lemma TargetRow(states: seq<Vault>, steps: seq<Step>, k: nat, id: nat)
    requires Run(states, steps) && k < |steps| && Archives(states[k], steps[k])
    requires |states[k + 1].archivals| == |states[k].archivals| + 1
    requires id in states[k].memories && !(id in states[k + 1].memories && states[k + 1].memories[id] == states[k].memories[id])
    ensures states[k + 1].archivals[|states[k].archivals|].target == states[k].memories[id]
    ensures states[k + 1].archivals[|states[k].archivals|].target.id == id
  {
    hide StillValid, Genuine, TargetCurrent, SurvivorCurrent, SuggestionsOk, OnceOk;
    Reachable(states, steps, k);
    ArchivesJustified(states, steps, k);
  }

  lemma OtherRowsStay(v: Vault, step: Step, id: nat)
    requires id in v.memories && Legal(v, step) && !step.EditMemory? && !Archives(v, step)
    ensures id in Apply(v, step).memories && Apply(v, step).memories[id] == v.memories[id]
  {
  }

  /** However long duplicates are archived, automatically or through review, no text that was live disappears. */
  lemma {:induction false} DuplicateClassNeverEmptied(states: seq<Vault>, steps: seq<Step>, i: nat, j: nat, text: nat)
    requires Run(states, steps) && i <= j < |states| && Said(states[i], text)
    requires forall k :: i <= k < j ==> DuplicateWork(states[k], steps[k])
    ensures Said(states[j], text)
    decreases j
  {
    hide Said, DuplicateWork;
    if i < j {
      DuplicateClassNeverEmptied(states, steps, i, j - 1, text);
      DuplicateWorkKeepsSaid(states, steps, j - 1, text);
    }
  }

  // ---------------------------------------------------------------- following survivors

  /** The archive action retired `from` in favour of `to`. */
  predicate Retired(a: Archival, from: nat, to: nat) {
    a.target.id == from && a.canonicalId == Some(to)
  }

  /** Each memory of the path was retired in favour of the next, in the order of the log from `start` on. */
  predicate Succession(log: seq<Archival>, start: nat, path: seq<nat>, at: seq<nat>) {
    && |path| == |at| + 1
    && (forall k :: 0 <= k < |at| ==> start <= at[k] < |log| && Retired(log[at[k]], path[k], path[k + 1]))
    && forall k, l :: 0 <= k < l < |at| ==> at[k] < at[l]
  }

  /** Nothing retired the memory since: it is live, or its own expiry ended it. */
  predicate Stands(v: Vault, id: nat) {
    && id in v.memories
    && ((v.memories[id].status == ActiveMemory && v.memories[id].approved) || v.memories[id].status == ExpiredMemory)
  }

  lemma SuccessionGrows(log: seq<Archival>, a: Archival, start: nat, path: seq<nat>, at: seq<nat>)
    requires Succession(log, start, path, at) && start <= |log|
    ensures Succession(log + [a], start, path, at)
    ensures a.target.id == path[|path| - 1] && a.canonicalId.Some? ==>
              Succession(log + [a], start, path + [a.canonicalId.value], at + [|log|])
  {
  }

  /** One archive action: the end of a path still stands, or its survivor does. */
  lemma ArchiveMovesOn(v: Vault, w: Vault, a: Archival, id: nat)
    requires Justified(v, w, a) && Stands(v, id)
    requires a.target.id != id ==> id in w.memories && w.memories[id] == v.memories[id]
    ensures a.target.id == id && a.canonicalId.Some? ==> Stands(w, a.canonicalId.value)
    ensures a.target.id != id || a.canonicalId.None? ==> Stands(w, id)
  {
  }

  /**
   * Following survivors: in every interleaving of automatic and reviewed archives, for whatever reasons and
   * without owner edits in between, each live memory leads through a succession of archive actions, in the
   * order they happened, to one that is live now or ended by its own expiry.
   */
  lemma {:induction false} SurvivorChain(states: seq<Vault>, steps: seq<Step>, i: nat, j: nat, id: nat) returns (path: seq<nat>, at: seq<nat>)
    requires Run(states, steps) && i <= j < |states| && Stands(states[i], id)
    requires forall k :: i <= k < j ==> !steps[k].EditMemory?
    ensures |states[i].archivals| <= |states[j].archivals|
    ensures Succession(states[j].archivals, |states[i].archivals|, path, at)
    ensures path[0] == id && Stands(states[j], path[|path| - 1])
    decreases j
  {
    hide Apply, Legal, Justified, Stands, StillValid, Genuine, TargetCurrent, SurvivorCurrent;
    if i == j {
      path, at := [id], [];
    } else {
      path, at := SurvivorChain(states, steps, i, j - 1, id);
      var v, w, last := states[j - 1], states[j], path[|path| - 1];
      var start := |states[i].archivals|;
      StandsIsRow(v, last);
      if Archives(v, steps[j - 1]) {
        ArchivesJustified(states, steps, j - 1);
        LogGrows(v, steps[j - 1]);
        var a := w.archivals[|v.archivals|];
        assert w.archivals == v.archivals + [a];
        SuccessionGrows(v.archivals, a, start, path, at);
        if !(last in w.memories && w.memories[last] == v.memories[last]) {
          TargetRow(states, steps, j - 1, last);
        }
        ArchiveMovesOn(v, w, a, last);
        if a.target.id == last && a.canonicalId.Some? {
          path, at := path + [a.canonicalId.value], at + [|v.archivals|];
        }
      } else {
        OtherRowsStay(v, steps[j - 1], last);
        SameRowStands(v, w, last);
      }
    }
  }

  lemma StandsIsRow(v: Vault, id: nat)
    requires Stands(v, id)
    ensures id in v.memories
  {
  }

  lemma SameRowStands(v: Vault, w: Vault, id: nat)
    requires Stands(v, id) && id in w.memories && w.memories[id] == v.memories[id]
    ensures Stands(w, id)
  {
  }

  /** The log of archive actions is only ever appended to. */
  lemma LogGrows(v: Vault, step: Step)
    ensures v.archivals <= Apply(v, step).archivals
  {
    hide StillValid, TargetCurrent, SurvivorCurrent;
  }
}
