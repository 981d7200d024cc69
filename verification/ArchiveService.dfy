/**
 * The consolidation writer, the archive-suggestion applier and the orchestrator's loop as statements
 * over the owner's rows. Each transaction is proved to be the matching step of module Archive.
 */
module ArchiveService {
  import opened Common
  import opened Processing
  import opened Consolidation
  import opened Archive
  import opened ArchiveRuns
  import ArchiveOutcomes
  import opened Dedupe

  datatype Mode = AutoApply | ReviewOnly

  /** The owner's consolidation mode and the configured apply mode. */
  datatype Plan = Plan(mode: Mode, reviewJudgments: bool)

  predicate Automatic(plan: Plan, c: ArchiveCandidate) {
    plan.mode == AutoApply && !(c.processors.Some? && plan.reviewJudgments)
  }

  datatype Progress = Progress(vault: Vault, applied: seq<ArchiveCandidate>, queuedTargets: set<nat>)

  /** What the loop does with one candidate; `id` names the suggestion it may create. */
  function ActOnOne(p: Progress, plan: Plan, c: ArchiveCandidate, id: nat): Progress {
    if Automatic(plan, c) then
      p.(vault := AutoArchiveStep(p.vault, c), applied := if StillValid(p.vault, c) then p.applied + [c] else p.applied)
    else
      p.(vault := SuggestStep(p.vault, id, c, p.queuedTargets),
         queuedTargets := if StillValid(p.vault, c) then p.queuedTargets + {c.memory.id} else p.queuedTargets)
  }

  function ActOnAll(p: Progress, plan: Plan, cs: seq<ArchiveCandidate>, ids: seq<nat>): Progress
    requires |ids| == |cs|
  {
    if cs == [] then p
    else
      var n := |cs| - 1;
      ActOnOne(ActOnAll(p, plan, cs[..n], ids[..n]), plan, cs[n], ids[n])
  }

  class ArchiveWriter {
    var vault: Vault

    constructor (vault: Vault)
      ensures this.vault == vault
    {
      this.vault := vault;
    }

    /** The checks in order: target, then survivor, then the processors behind a judgment. */
    method CandidateStillValid(c: ArchiveCandidate) returns (valid: bool)
      ensures valid == StillValid(vault, c)
    {
      var rows := [c.memory] + (if c.canonical.Some? then [c.canonical.value] else []);
      for i := 0 to |rows|
        invariant forall k :: 0 <= k < i ==> StillAt(vault, rows[k]) && SurvivorAmong(vault, rows[k], c)
      {
        var expected := rows[i];
        if !StillAt(vault, expected) {
          return false;
        }
        var actual := vault.memories[expected.id];
        if c.canonical.Some? && expected.id == c.canonical.value.id &&
           (!actual.approved || (actual.expiresAt.Some? && actual.expiresAt.value <= vault.now)) {
          assert !SurvivorAmong(vault, expected, c);
          assert i < |rows| && !MaySurvive(vault, c.canonical.value.id);
          return false;
        }
      }
      assert rows[0] == c.memory;
      assert c.canonical.Some? ==> rows[1] == c.canonical.value;
      if c.processors.Some? && !Check(vault.env, Scope.Consolidation, vault.selected, c.processors.value, false).Allowed? {
        return false;
      }
      valid := true;
    }

    method ArchiveCandidate(c: ArchiveCandidate) returns (archived: bool)
      modifies this
      ensures vault == AutoArchiveStep(old(vault), c)
      ensures archived <==> StillValid(old(vault), c)
    {
      archived := CandidateStillValid(c);
      if archived {
        var row := vault.memories[c.memory.id];
        UpdateMemory(row.(id := c.memory.id, status := if c.reason == Expired then ExpiredMemory else ArchivedMemory));
        LogArchival(Archival(row, CanonicalId(c), VersionOf(c.canonical), c.reason, None));
      }
    }

    /** The update of one row, which stamps a new version. */
    method UpdateMemory(row: Memory)
      modifies this
      ensures vault == Stamp(old(vault), row)
    {
      var stamped := row.(version := vault.now + 1);
      vault := vault.(memories := vault.memories[row.id := stamped],
                      revisions := vault.revisions[(row.id, stamped.version) := stamped],
                      now := vault.now + 1);
    }

    method LogArchival(a: Archival)
      modifies this
      ensures vault == old(vault).(archivals := old(vault).archivals + [a])
    {
      vault := vault.(archivals := vault.archivals + [a]);
    }

    method CreateArchiveSuggestion(id: nat, c: ArchiveCandidate, queuedTargets: set<nat>) returns (created: bool)
      modifies this
      ensures vault == SuggestStep(old(vault), id, c, queuedTargets)
      ensures created <==> c.memory.id !in queuedTargets && StillValid(old(vault), c)
    {
      if c.memory.id in queuedTargets {
        return false;
      }
      created := CandidateStillValid(c);
      if created {
        vault := vault.(suggestions := vault.suggestions[id :=
          Suggestion(c.memory.id, Some(c.memory.version), CanonicalId(c), VersionOf(c.canonical), c.reason, QueuedForReview)]);
      }
    }

    /** Compare and set on the status; false is the conflict. */
    method ClaimSuggestion(id: nat, status: SuggestionStatus) returns (claimed: bool)
      modifies this
      ensures claimed <==> id in old(vault).suggestions && old(vault).suggestions[id].status == QueuedForReview
      ensures vault == if claimed then
                old(vault).(suggestions := old(vault).suggestions[id := old(vault).suggestions[id].(status := status)])
              else old(vault)
    {
      claimed := id in vault.suggestions && vault.suggestions[id].status == QueuedForReview;
      if claimed {
        vault := vault.(suggestions := vault.suggestions[id := vault.suggestions[id].(status := status)]);
      }
    }

    /** False is an exception, after which the claim is rolled back. */
    method ApplyArchiveSuggestion(id: nat) returns (applied: bool)
      modifies this
      ensures vault == ApplySuggestionStep(old(vault), id)
      ensures applied <==> Applicable(old(vault), id)
    {
      var before := vault;
      var claimed := ClaimSuggestion(id, Applied);
      if !claimed {
        return false;
      }
      var s := before.suggestions[id];
      if s.targetId !in vault.memories {
        vault := before;
        return false;
      }
      var target := vault.memories[s.targetId];
      if s.targetVersion.Some? && (target.status != ActiveMemory || target.version != s.targetVersion.value) {
        vault := before;
        return false;
      }
      if s.canonicalId.Some? {
        var survivorId := s.canonicalId.value;
        if survivorId !in vault.memories || vault.memories[survivorId].status != ActiveMemory ||
           !vault.memories[survivorId].approved {
          vault := before;
          return false;
        }
        var survivor := vault.memories[survivorId];
        if survivorId == s.targetId || (survivor.expiresAt.Some? && survivor.expiresAt.value <= vault.now) ||
           (s.canonicalVersion.Some? && survivor.version != s.canonicalVersion.value) {
          vault := before;
          return false;
        }
      }
      applied := true;
      UpdateMemory(target.(id := s.targetId, status := if s.reason == Expired then ExpiredMemory else ArchivedMemory));
      LogArchival(Archival(target, s.canonicalId, s.canonicalVersion, s.reason, Some(id)));
    }

    method RejectSuggestion(id: nat) returns (rejected: bool)
      modifies this
      ensures vault == RejectStep(old(vault), id)
      ensures rejected <==> id in old(vault).suggestions && old(vault).suggestions[id].status == QueuedForReview
    {
      rejected := ClaimSuggestion(id, Rejected);
    }

    /** The orchestrator's loop over the deduplicated candidates, with no other writer in between. */
    method RunCandidates(cs: seq<ArchiveCandidate>, ids: seq<nat>, plan: Plan, queued: set<nat>)
      returns (applied: seq<ArchiveCandidate>)
      requires |ids| == |cs|
      modifies this
      ensures var end := ActOnAll(Progress(old(vault), [], queued), plan, cs, ids);
              vault == end.vault && applied == end.applied
    {
      hide AutoArchiveStep, SuggestStep, StillValid;
      applied := [];
      var queuedTargets := queued;
      for i := 0 to |cs|
        invariant Progress(vault, applied, queuedTargets) == ActOnAll(Progress(old(vault), [], queued), plan, cs[..i], ids[..i])
      {
        ActNext(Progress(old(vault), [], queued), plan, cs, ids, i);
        if Automatic(plan, cs[i]) {
          var archived := ArchiveCandidate(cs[i]);
          if archived {
            applied := applied + [cs[i]];
          }
        } else {
          var created := CreateArchiveSuggestion(ids[i], cs[i], queuedTargets);
          if created {
            queuedTargets := queuedTargets + {cs[i].memory.id};
          } else {
            QueuedAgain(queuedTargets, cs[i].memory.id);
          }
        }
      }
      assert cs[..|cs|] == cs && ids[..|ids|] == ids;
    }
  }

  lemma QueuedAgain(queued: set<nat>, id: nat)
    ensures id in queued ==> queued + {id} == queued
  {
  }

  lemma ActNext(p: Progress, plan: Plan, cs: seq<ArchiveCandidate>, ids: seq<nat>, i: nat)
    requires |ids| == |cs| && i < |cs|
    ensures ActOnAll(p, plan, cs[..i + 1], ids[..i + 1]) == ActOnOne(ActOnAll(p, plan, cs[..i], ids[..i]), plan, cs[i], ids[i])
  {
    assert cs[..i + 1][..i] == cs[..i] && ids[..i + 1][..i] == ids[..i];
  }

  // ---------------------------------------------------------------- one suggestion per target

  predicate Queued(v: Vault, id: nat) {
    id in v.suggestions && v.suggestions[id].status == QueuedForReview
  }

  /** No target has two queued suggestions, and the loop knows the targets that have one. */
  ghost predicate OnePerTarget(p: Progress) {
    && (forall i, j :: Queued(p.vault, i) && Queued(p.vault, j) && p.vault.suggestions[i].targetId == p.vault.suggestions[j].targetId ==> i == j)
    && forall i :: Queued(p.vault, i) ==> p.vault.suggestions[i].targetId in p.queuedTargets
  }

  /** A run that starts from the queued targets leaves every target with at most one queued suggestion. */
  lemma {:induction false} RunQueuesOnce(p: Progress, plan: Plan, cs: seq<ArchiveCandidate>, ids: seq<nat>)
    requires |ids| == |cs| && Distinct(ids) && OnePerTarget(p)
    requires forall id :: id in ids ==> id !in p.vault.suggestions
    ensures OnePerTarget(ActOnAll(p, plan, cs, ids))
    ensures ActOnAll(p, plan, cs, ids).vault.suggestions.Keys <= p.vault.suggestions.Keys + Elements(ids)
  {
    hide StillValid, OnePerTarget, ActOnOne;
    if cs != [] {
      var n := |cs| - 1;
      assert forall id :: id in ids[..n] ==> id in ids;
      RunQueuesOnce(p, plan, cs[..n], ids[..n]);
      var mid := ActOnAll(p, plan, cs[..n], ids[..n]);
      assert ids[n] in ids && ids[n] !in ids[..n];
      ActQueuesOnce(mid, plan, cs[n], ids[n]);
    }
  }

  lemma ActQueuesOnce(p: Progress, plan: Plan, c: ArchiveCandidate, id: nat)
    requires OnePerTarget(p) && id !in p.vault.suggestions
    ensures OnePerTarget(ActOnOne(p, plan, c, id))
    ensures ActOnOne(p, plan, c, id).vault.suggestions.Keys <= p.vault.suggestions.Keys + {id}
  {
    hide StillValid;
  }

  // ---------------------------------------------------------------- a run leaves its survivors alone

  lemma {:induction false} OthersUntouched(p: Progress, plan: Plan, cs: seq<ArchiveCandidate>, ids: seq<nat>, id: nat)
    requires |ids| == |cs| && id in p.vault.memories && id !in Targets(cs)
    ensures id in ActOnAll(p, plan, cs, ids).vault.memories
    ensures ActOnAll(p, plan, cs, ids).vault.memories[id] == p.vault.memories[id]
  {
    hide StillValid;
    if cs != [] {
      var n := |cs| - 1;
      assert cs[n] in cs && forall c :: c in cs[..n] ==> c in cs;
      OthersUntouched(p, plan, cs[..n], ids[..n], id);
    }
  }

  /** What holds of a candidate the run archived. */
  predicate LeftAlive(v: Vault, w: Vault, c: ArchiveCandidate) {
    && c.memory.id in w.memories && w.memories[c.memory.id].status == (if c.reason == Expired then ExpiredMemory else ArchivedMemory)
    && (c.canonical.Some? ==>
          && c.canonical.value.id in v.memories && c.canonical.value.id in w.memories
          && w.memories[c.canonical.value.id] == v.memories[c.canonical.value.id]
          && w.memories[c.canonical.value.id].version == c.canonical.value.version
          && w.memories[c.canonical.value.id].status == ActiveMemory && w.memories[c.canonical.value.id].approved)
  }

  /** No survivor of the list is also one of its targets; targets differ. */
  predicate Apart(cs: seq<ArchiveCandidate>) {
    && DistinctTargets(cs)
    && forall c :: c in cs && c.canonical.Some? ==> c.canonical.value.id !in Targets(cs)
  }

  lemma {:induction false} RunKeepsSurvivors(v: Vault, plan: Plan, cs: seq<ArchiveCandidate>, ids: seq<nat>, queued: set<nat>)
    requires |ids| == |cs| && Apart(cs)
    ensures var end := ActOnAll(Progress(v, [], queued), plan, cs, ids);
            forall c :: c in end.applied ==> c in cs && LeftAlive(v, end.vault, c)
  {
    hide SuggestStep, ArchivedStatus;
    if cs != [] {
      var n := |cs| - 1;
      var c := cs[n];
      ApartInit(cs);
      RunKeepsSurvivors(v, plan, cs[..n], ids[..n], queued);
      var mid := ActOnAll(Progress(v, [], queued), plan, cs[..n], ids[..n]);
      var end := ActOnOne(mid, plan, c, ids[n]);
      assert cs == cs[..n] + [c];
      forall a | a in end.applied
        ensures a in cs && LeftAlive(v, end.vault, a)
      {
        if a in mid.applied {
          assert LeftAlive(v, mid.vault, a) && a in cs[..n] && c in cs;
          LastLeavesOthers(mid, plan, c, ids[n], v, a);
        } else {
          assert a == c && Automatic(plan, c) && StillValid(mid.vault, c);
          if c.canonical.Some? {
            SurvivorUntouched(v, plan, cs, ids, queued, c);
          }
          ArchivedNow(mid.vault, c);
        }
      }
    }
  }

  lemma ApartInit(cs: seq<ArchiveCandidate>)
    requires Apart(cs) && cs != []
    ensures Apart(cs[..|cs| - 1])
    ensures forall a :: a in cs[..|cs| - 1] ==>
              a.memory.id != cs[|cs| - 1].memory.id && (a.canonical.Some? ==> a.canonical.value.id != cs[|cs| - 1].memory.id)
  {
  }

  lemma SurvivorUntouched(v: Vault, plan: Plan, cs: seq<ArchiveCandidate>, ids: seq<nat>, queued: set<nat>, c: ArchiveCandidate)
    requires |ids| == |cs| && cs != [] && Apart(cs) && c == cs[|cs| - 1] && c.canonical.Some?
    requires var mid := ActOnAll(Progress(v, [], queued), plan, cs[..|cs| - 1], ids[..|cs| - 1]); StillValid(mid.vault, c)
    ensures var mid := ActOnAll(Progress(v, [], queued), plan, cs[..|cs| - 1], ids[..|cs| - 1]);
            c.canonical.value.id in v.memories && mid.vault.memories[c.canonical.value.id] == v.memories[c.canonical.value.id]
    ensures c.canonical.value.id != c.memory.id
  {
    hide ActOnOne;
    var n := |cs| - 1;
    var id := c.canonical.value.id;
    assert c in cs && forall a :: a in cs[..n] ==> a in cs;
    assert c.memory.id in Targets(cs) && id !in Targets(cs[..n]);
    NoNewRows(Progress(v, [], queued), plan, cs[..n], ids[..n]);
    OthersUntouched(Progress(v, [], queued), plan, cs[..n], ids[..n], id);
  }

  lemma {:induction false} NoNewRows(p: Progress, plan: Plan, cs: seq<ArchiveCandidate>, ids: seq<nat>)
    requires |ids| == |cs|
    ensures ActOnAll(p, plan, cs, ids).vault.memories.Keys == p.vault.memories.Keys
  {
    if cs != [] {
      NoNewRows(p, plan, cs[..|cs| - 1], ids[..|cs| - 1]);
    }
  }

  lemma LastLeavesOthers(mid: Progress, plan: Plan, c: ArchiveCandidate, id: nat, v: Vault, a: ArchiveCandidate)
    requires LeftAlive(v, mid.vault, a)
    requires a.memory.id != c.memory.id && (a.canonical.Some? ==> a.canonical.value.id != c.memory.id)
    ensures LeftAlive(v, ActOnOne(mid, plan, c, id).vault, a)
  {
  }

  lemma ArchivedNow(v: Vault, c: ArchiveCandidate)
    requires StillValid(v, c)
    ensures c.memory.id in AutoArchiveStep(v, c).memories
    ensures AutoArchiveStep(v, c).memories[c.memory.id].status == (if c.reason == Expired then ExpiredMemory else ArchivedMemory)
    ensures c.canonical.Some? && c.canonical.value.id != c.memory.id ==>
              AutoArchiveStep(v, c).memories[c.canonical.value.id] == v.memories[c.canonical.value.id]
  {
  }

  /** The greedy filter keeps survivors and targets apart. */
  lemma DedupedApart(all: seq<ArchiveCandidate>)
    requires forall c :: c in all ==> Distinguishes(c)
    ensures Apart(Kept(all, {}, all))
  {
    hide Keeps, Expires, InConflict, Kept, SelfReached;
    var at := NoArchivedSurvivor(all);
    DistinguishedSurvive(all);
  }

  /**
   * A whole run: whatever the producers proposed, after the loop over the filtered candidates every
   * archived memory's survivor is the same ACTIVE, approved row as before the run.
   */
  lemma RunLeavesSurvivors(v: Vault, plan: Plan, all: seq<ArchiveCandidate>, ids: seq<nat>, queued: set<nat>)
    requires (forall c :: c in all ==> Distinguishes(c)) && |ids| == |Kept(all, {}, all)|
    ensures var end := ActOnAll(Progress(v, [], queued), plan, Kept(all, {}, all), ids);
            forall c :: c in end.applied ==> c in all && LeftAlive(v, end.vault, c)
  {
    hide Keeps, InConflict, Kept, LeftAlive, ActOnAll;
    DedupedApart(all);
    var at := NoArchivedSurvivor(all);
    RunKeepsSurvivors(v, plan, Kept(all, {}, all), ids, queued);
    forall c | c in Kept(all, {}, all)
      ensures c in all
    {
      var i :| 0 <= i < |Kept(all, {}, all)| && Kept(all, {}, all)[i] == c;
    }
  }

  // ---------------------------------------------------------------- a run acts on every candidate

  /**
   * What a run does with its n-th candidate, in the state the ones before left: under automatic consolidation, unless it is a
   * judgment that is to be reviewed, the target is archived exactly when all it rests on holds; otherwise it is suggested, unless
   * its target has a suggestion queued already; and what does not hold is left alone.
   */
  lemma RunActs(p: Progress, plan: Plan, cs: seq<ArchiveCandidate>, ids: seq<nat>, n: nat)
    requires |ids| == |cs| && n < |cs| && Genuine(ActOnAll(p, plan, cs[..n], ids[..n]).vault, cs[n])
    requires VersionsOk(ActOnAll(p, plan, cs[..n], ids[..n]).vault) && ids[n] !in ActOnAll(p, plan, cs[..n], ids[..n]).vault.suggestions
    ensures var before, after := ActOnAll(p, plan, cs[..n], ids[..n]), ActOnAll(p, plan, cs[..n + 1], ids[..n + 1]);
            var holds := ArchiveOutcomes.Holds(before.vault, cs[n]);
            && (plan.mode == AutoApply && !(cs[n].processors.Some? && plan.reviewJudgments) ==>
                  && after.queuedTargets == before.queuedTargets
                  && (holds ==> ArchiveOutcomes.Archived(before.vault, after.vault, cs[n].memory.id, cs[n].reason) && after.applied == before.applied + [cs[n]])
                  && (!holds ==> after == before))
            && (!(plan.mode == AutoApply && !(cs[n].processors.Some? && plan.reviewJudgments)) ==>
                  && after.applied == before.applied && after.vault.memories == before.vault.memories
                  && (ids[n] in after.vault.suggestions <==> holds && cs[n].memory.id !in before.queuedTargets)
                  && (ids[n] in after.vault.suggestions ==>
                        ArchiveOutcomes.Proposes(after.vault.suggestions[ids[n]], cs[n]) && cs[n].memory.id in after.queuedTargets)
                  && (!holds ==> after == before))
  {
    hide Genuine, StillValid, VersionsOk;
    var before := ActOnAll(p, plan, cs[..n], ids[..n]);
    ActNext(p, plan, cs, ids, n);
    ArchiveOutcomes.HoldsIff(before.vault, cs[n]);
    if StillValid(before.vault, cs[n]) {
      ValidTarget(before.vault, cs[n]);
      ArchiveOutcomes.RowIs(before.vault, cs[n].memory.id);
    }
  }
}
