/** What each archive action, proposal and review decision brings about, over every run. */
module ArchiveOutcomes {
  import opened Common
  import opened Processing
  import opened Consolidation
  import opened Archive
  import opened ArchiveRuns

  lemma StepIs(states: seq<Vault>, steps: seq<Step>, i: nat)
    requires Run(states, steps) && i < |steps|
    ensures |states| == |steps| + 1 && Legal(states[i], steps[i]) && states[i + 1] == Apply(states[i], steps[i])
    ensures VersionsOk(states[i]) && SuggestionsOk(states[i])
  {
    hide Apply, Legal, VersionsOk, SuggestionsOk;
    Reachable(states, steps, i);
  }

  /** The memory is live at that version. */
  predicate LiveAt(v: Vault, id: nat, version: int) {
    id in v.memories && v.memories[id].status == ActiveMemory && v.memories[id].version == version
  }

  /** The memory may take another's place: live at that version, approved and not expired. */
  predicate SurvivesAt(v: Vault, id: nat, version: int) {
    LiveAt(v, id, version) && v.memories[id].approved && (v.memories[id].expiresAt.Some? ==> v.memories[id].expiresAt.value > v.now)
  }

  /** The memory is archived, or expired if that is the reason, under a new version and otherwise as it was; no other memory changes. */
  predicate Archived(v: Vault, w: Vault, id: nat, reason: Reason) {
    && id in v.memories && id in w.memories
    && w.memories[id] == v.memories[id].(status := if reason == Expired then ExpiredMemory else ArchivedMemory, version := v.now + 1)
    && w.memories - {id} == v.memories - {id}
  }

  // ---------------------------------------------------------------- automatic archiving and proposing

  /** Everything the proposal rests on still holds. */
  predicate Holds(v: Vault, c: ArchiveCandidate) {
    && LiveAt(v, c.memory.id, c.memory.version)
    && (c.canonical.Some? ==> SurvivesAt(v, c.canonical.value.id, c.canonical.value.version))
    && (c.processors.Some? ==> Check(v.env, Scope.Consolidation, v.selected, c.processors.value, false).Allowed?)
  }

  lemma HoldsIff(v: Vault, c: ArchiveCandidate)
    requires Genuine(v, c)
    ensures Holds(v, c) <==> StillValid(v, c)
  {
  }

  /** An automatic archive takes effect exactly when everything its proposal rests on still holds; then it is logged once, without a suggestion. */
  lemma AutoArchiveIff(states: seq<Vault>, steps: seq<Step>, i: nat)
    requires Run(states, steps) && i < |steps| && steps[i].AutoArchive?
    ensures Archives(states[i], steps[i]) <==> Holds(states[i], steps[i].c)
    ensures !Holds(states[i], steps[i].c) ==> states[i + 1] == states[i]
    ensures Holds(states[i], steps[i].c) ==>
              && Archived(states[i], states[i + 1], steps[i].c.memory.id, steps[i].c.reason)
              && states[i + 1].suggestions == states[i].suggestions
              && |states[i + 1].archivals| == |states[i].archivals| + 1
              && states[i + 1].archivals[|states[i].archivals|].suggestionId.None?
  {
    hide Genuine, StillValid, Holds, VersionsOk, SuggestionsOk;
    StepIs(states, steps, i);
    HoldsIff(states[i], steps[i].c);
    if StillValid(states[i], steps[i].c) {
      ValidTarget(states[i], steps[i].c);
      RowIs(states[i], steps[i].c.memory.id);
    }
  }

  lemma RowIs(v: Vault, id: nat)
    requires VersionsOk(v) && id in v.memories
    ensures v.memories[id].id == id
  {
  }

  /** The suggestion proposes what the candidate does. */
  predicate Proposes(s: Suggestion, c: ArchiveCandidate) {
    && s.targetId == c.memory.id && s.targetVersion == Some(c.memory.version) && s.reason == c.reason
    && (c.canonical.None? ==> s.canonicalId.None? && s.canonicalVersion.None?)
    && (c.canonical.Some? ==> s.canonicalId == Some(c.canonical.value.id) && s.canonicalVersion == Some(c.canonical.value.version))
  }

  /** A proposal is queued exactly when its target has none queued and everything it rests on still holds, and then says what the candidate does. */
  lemma SuggestIff(states: seq<Vault>, steps: seq<Step>, i: nat)
    requires Run(states, steps) && i < |steps| && steps[i].Suggest?
    ensures steps[i].id in states[i + 1].suggestions <==> steps[i].c.memory.id !in steps[i].queuedTargets && Holds(states[i], steps[i].c)
    ensures steps[i].id in states[i + 1].suggestions ==>
              && states[i + 1].suggestions[steps[i].id].status == QueuedForReview && Proposes(states[i + 1].suggestions[steps[i].id], steps[i].c)
              && states[i + 1] == states[i].(suggestions := states[i + 1].suggestions)
              && states[i + 1].suggestions - {steps[i].id} == states[i].suggestions
    ensures steps[i].id !in states[i + 1].suggestions ==> states[i + 1] == states[i]
  {
    hide StillValid, Holds, VersionsOk, SuggestionsOk;
    StepIs(states, steps, i);
    HoldsIff(states[i], steps[i].c);
  }

  /** Every suggestion goes back to the one step that queued it. */
  lemma {:induction false} SuggestionOrigin(states: seq<Vault>, steps: seq<Step>, k: nat, id: nat) returns (i: nat)
    requires Run(states, steps) && k < |states| && id in states[k].suggestions
    ensures i < k && steps[i].Suggest? && steps[i].id == id && Proposes(states[k].suggestions[id], steps[i].c)
    ensures Holds(states[i], steps[i].c)
  {
    hide Apply, Legal, Proposes, Holds, VersionsOk, SuggestionsOk;
    if k == 0 {
      assert false;
    } else {
      StepIs(states, steps, k - 1);
      if id in states[k - 1].suggestions {
        i := SuggestionOrigin(states, steps, k - 1, id);
        SuggestionStays(states[k - 1], steps[k - 1], id);
        SameProposal(states[k - 1].suggestions[id], states[k].suggestions[id], steps[i].c);
      } else {
        i := k - 1;
        OnlySuggestQueues(states[i], steps[i], id);
        SuggestIff(states, steps, i);
      }
    }
  }

  lemma SameProposal(s: Suggestion, t: Suggestion, c: ArchiveCandidate)
    requires Proposes(s, c) && t.(status := QueuedForReview) == s.(status := QueuedForReview)
    ensures Proposes(t, c)
  {
  }

  lemma OnlySuggestQueues(v: Vault, step: Step, id: nat)
    requires id !in v.suggestions && id in Apply(v, step).suggestions
    ensures step.Suggest? && step.id == id
  {
    hide StillValid, TargetCurrent, SurvivorCurrent;
  }

  // ---------------------------------------------------------------- review

  predicate Queued(v: Vault, id: nat) {
    id in v.suggestions && v.suggestions[id].status == QueuedForReview
  }

  /** What a queued suggestion rests on still holds; what it once needed of the provider was asked when it was queued. */
  predicate Applies(v: Vault, s: Suggestion) {
    && s.targetVersion.Some? && LiveAt(v, s.targetId, s.targetVersion.value)
    && (s.canonicalId.Some? ==>
          s.canonicalVersion.Some? && s.canonicalId.value != s.targetId && SurvivesAt(v, s.canonicalId.value, s.canonicalVersion.value))
  }

  /**
   * Applying a suggestion takes effect exactly when it is queued and its target and survivor are what they were: then the target is
   * archived, the suggestion is applied, and the log names it; otherwise nothing changes, and it stays queued.
   */
  lemma ApplyIff(states: seq<Vault>, steps: seq<Step>, i: nat)
    requires Run(states, steps) && i < |steps| && steps[i].ApplySuggestion?
    ensures Archives(states[i], steps[i]) <==> Queued(states[i], steps[i].id) && Applies(states[i], states[i].suggestions[steps[i].id])
    ensures !Archives(states[i], steps[i]) ==> states[i + 1] == states[i]
    ensures Archives(states[i], steps[i]) ==>
              var s := states[i].suggestions[steps[i].id];
              && Archived(states[i], states[i + 1], s.targetId, s.reason)
              && states[i + 1].suggestions == states[i].suggestions[steps[i].id := s.(status := Applied)]
              && |states[i + 1].archivals| == |states[i].archivals| + 1
              && states[i + 1].archivals[|states[i].archivals|].suggestionId == Some(steps[i].id)
  {
    hide Founded, VersionsOk;
    StepIs(states, steps, i);
    if Queued(states[i], steps[i].id) {
      var s := states[i].suggestions[steps[i].id];
      FoundedAt(states[i], steps[i].id);
      AppliesIff(states[i], s);
      if Applies(states[i], s) {
        RowIs(states[i], s.targetId);
      }
    }
  }

  lemma AppliesIff(v: Vault, s: Suggestion)
    requires Founded(v, s)
    ensures Applies(v, s) <==> TargetCurrent(v, s) && SurvivorCurrent(v, s)
  {
  }

  /** A queued suggestion that is rejected is rejected and nothing else changes; it never takes effect, whoever applies it and whenever. */
  lemma RejectedForGood(states: seq<Vault>, steps: seq<Step>, i: nat, k: nat)
    requires Run(states, steps) && i < k < |states| && steps[i].Reject?
    ensures !Queued(states[i], steps[i].id) ==> states[i + 1] == states[i]
    ensures Queued(states[i], steps[i].id) ==>
              && states[i + 1] == states[i].(suggestions := states[i].suggestions[steps[i].id := states[i].suggestions[steps[i].id].(status := Rejected)])
              && steps[i].id in states[k].suggestions && states[k].suggestions[steps[i].id].status == Rejected
              && Through(states[k].archivals, steps[i].id) == 0
              && (k < |steps| && (steps[k].ApplySuggestion? || steps[k].Reject?) && steps[k].id == steps[i].id ==> states[k + 1] == states[k])
  {
    hide VersionsOk, SuggestionsOk, Through, TargetCurrent, SurvivorCurrent;
    StepIs(states, steps, i);
    if Queued(states[i], steps[i].id) {
      SuggestionStaysForever(states, steps, i + 1, k, steps[i].id);
      AppliedAtMostOnce(states, steps, k, steps[i].id);
    }
  }
}
