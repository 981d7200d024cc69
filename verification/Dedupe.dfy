/** Greedy selection of archive proposals: apps/api/src/consolidation/dedupe-candidates.ts. */
module Dedupe {
  import opened Common
  import opened Consolidation

  /** Some proposal in the list expires memory `id`. */
  predicate Expires(all: seq<ArchiveCandidate>, id: nat) {
    exists other :: other in all && other.memory.id == id && other.reason == Expired
  }

  /** Some proposal whose target is already seen relies on `id` to survive. */
  predicate ReliedOn(all: seq<ArchiveCandidate>, seen: set<nat>, id: nat) {
    exists other :: other in all && other.memory.id in seen && other.canonical.Some? && other.canonical.value.id == id
  }

  predicate Keeps(c: ArchiveCandidate, seen: set<nat>, all: seq<ArchiveCandidate>) {
    && c.memory.id !in seen
    && (c.canonical.Some? ==> c.canonical.value.id !in seen && !Expires(all, c.canonical.value.id))
    && !ReliedOn(all, seen, c.memory.id)
  }

  function Kept(rest: seq<ArchiveCandidate>, seen: set<nat>, all: seq<ArchiveCandidate>): seq<ArchiveCandidate> {
    if rest == [] then []
    else if Keeps(rest[0], seen, all) then [rest[0]] + Kept(rest[1..], seen + {rest[0].memory.id}, all)
    else Kept(rest[1..], seen, all)
  }

  method DedupeCandidates(candidates: seq<ArchiveCandidate>) returns (kept: seq<ArchiveCandidate>)
    ensures kept == Kept(candidates, {}, candidates)
  {
    hide Keeps;
    kept := [];
    var seenMemoryIds: set<nat> := {};
    for i := 0 to |candidates|
      invariant Kept(candidates, {}, candidates) == kept + Kept(candidates[i..], seenMemoryIds, candidates)
    {
      var candidate := candidates[i];
      assert candidates[i..][0] == candidate && candidates[i..][1..] == candidates[i + 1..];
      var keep := KeepsOne(candidate, seenMemoryIds, candidates);
      if !keep {
        continue;
      }
      kept := kept + [candidate];
      seenMemoryIds := seenMemoryIds + {candidate.memory.id};
    }
    assert candidates[|candidates|..] == [];
  }

  /** The filter callback, check by check. */
  method KeepsOne(candidate: ArchiveCandidate, seenMemoryIds: set<nat>, candidates: seq<ArchiveCandidate>)
    returns (keep: bool)
    ensures keep == Keeps(candidate, seenMemoryIds, candidates)
  {
    if candidate.memory.id in seenMemoryIds {
      return false;
    }
    if candidate.canonical.Some? &&
       (candidate.canonical.value.id in seenMemoryIds || Expires(candidates, candidate.canonical.value.id)) {
      return false;
    }
    if ReliedOn(candidates, seenMemoryIds, candidate.memory.id) {
      return false;
    }
    keep := true;
  }

  // ---------------------------------------------------------------- guarantees

  predicate RelyingOn(c: ArchiveCandidate, id: nat) {
    c.canonical.Some? && c.canonical.value.id == id
  }

  /** Distinct targets, and a survivor that is a target at all is the candidate's own target. */
  predicate Sound(kept: seq<ArchiveCandidate>, all: seq<ArchiveCandidate>) {
    && DistinctTargets(kept)
    && (forall i, j :: 0 <= i < |kept| && 0 <= j < |kept| ==> RelyingOn(kept[i], kept[j].memory.id) ==> i == j)
    && (forall i :: 0 <= i < |kept| && kept[i].canonical.Some? ==> !Expires(all, kept[i].canonical.value.id))
    && (forall i :: 0 <= i < |kept| ==> kept[i] in all)
  }

  /** The other proposal archives the target or the survivor of this one. */
  predicate TakesFrom(other: ArchiveCandidate, c: ArchiveCandidate) {
    other.memory.id == c.memory.id || (c.canonical.Some? && other.memory.id == c.canonical.value.id)
  }

  /** The other proposal has a kept one's target and relies on this one's target to survive. */
  predicate NeedsTarget(other: ArchiveCandidate, c: ArchiveCandidate, kept: seq<ArchiveCandidate>) {
    RelyingOn(other, c.memory.id) && exists k :: k in kept && k.memory.id == other.memory.id
  }

  /** A concrete proposal that rules a dropped one out. */
  predicate InConflict(c: ArchiveCandidate, kept: seq<ArchiveCandidate>, all: seq<ArchiveCandidate>) {
    || (exists k :: k in kept && TakesFrom(k, c))
    || (exists e :: e in all && e.reason == Expired && c.canonical.Some? && e.memory.id == c.canonical.value.id)
    || (exists other :: other in all && NeedsTarget(other, c, kept))
  }

  lemma SoundSnoc(kept: seq<ArchiveCandidate>, c: ArchiveCandidate, all: seq<ArchiveCandidate>)
    requires Sound(kept, all) && c in all && Keeps(c, Targets(kept), all)
    ensures Sound(kept + [c], all)
    ensures Targets(kept + [c]) == Targets(kept) + {c.memory.id}
  {
  }

  lemma {:induction false} KeptIsSound(prior: seq<ArchiveCandidate>, rest: seq<ArchiveCandidate>, all: seq<ArchiveCandidate>)
    requires Sound(prior, all) && forall c :: c in rest ==> c in all
    ensures Sound(prior + Kept(rest, Targets(prior), all), all)
    ensures forall c :: c in rest ==>
              c in Kept(rest, Targets(prior), all) || InConflict(c, prior + Kept(rest, Targets(prior), all), all)
    decreases |rest|
  {
    hide Keeps, InConflict, Sound;
    if rest == [] {
      assert prior + [] == prior;
    } else if Keeps(rest[0], Targets(prior), all) {
      SoundSnoc(prior, rest[0], all);
      KeptIsSound(prior + [rest[0]], rest[1..], all);
      var tail := Kept(rest[1..], Targets(prior) + {rest[0].memory.id}, all);
      assert (prior + [rest[0]]) + tail == prior + ([rest[0]] + tail);
    } else {
      KeptIsSound(prior, rest[1..], all);
      DroppedInConflict(rest[0], prior, Kept(rest[1..], Targets(prior), all), all);
    }
  }

  lemma DroppedInConflict(c: ArchiveCandidate, prior: seq<ArchiveCandidate>, later: seq<ArchiveCandidate>, all: seq<ArchiveCandidate>)
    requires !Keeps(c, Targets(prior), all)
    ensures InConflict(c, prior + later, all)
  {
    var kept := prior + later;
    assert forall k :: k in prior ==> k in kept;
    if c.memory.id in Targets(prior) {
      var k :| k in prior && k.memory.id == c.memory.id;
      assert k in kept && TakesFrom(k, c);
    } else if c.canonical.Some? && c.canonical.value.id in Targets(prior) {
      var k :| k in prior && k.memory.id == c.canonical.value.id;
      assert k in kept && TakesFrom(k, c);
    } else if ReliedOn(all, Targets(prior), c.memory.id) {
      var other :| other in all && other.memory.id in Targets(prior) && other.canonical.Some? && other.canonical.value.id == c.memory.id;
      var k :| k in prior && k.memory.id == other.memory.id;
      assert k in kept && NeedsTarget(other, c, kept);
    } else {
      var e :| e in all && e.memory.id == c.canonical.value.id && e.reason == Expired;
    }
  }

  lemma {:induction false} KeptInOrder(rest: seq<ArchiveCandidate>, seen: set<nat>, all: seq<ArchiveCandidate>)
    returns (at: seq<nat>)
    ensures |at| == |Kept(rest, seen, all)|
    ensures forall k :: 0 <= k < |at| ==> at[k] < |rest| && rest[at[k]] == Kept(rest, seen, all)[k]
    ensures forall k, l :: 0 <= k < l < |at| ==> at[k] < at[l]
    decreases |rest|
  {
    hide Keeps;
    if rest == [] {
      at := [];
    } else if Keeps(rest[0], seen, all) {
      var tail := KeptInOrder(rest[1..], seen + {rest[0].memory.id}, all);
      at := [0] + Shifted(tail);
    } else {
      var tail := KeptInOrder(rest[1..], seen, all);
      at := Shifted(tail);
    }
  }

  function Shifted(at: seq<nat>): (r: seq<nat>)
    ensures |r| == |at| && forall k :: 0 <= k < |at| ==> r[k] == at[k] + 1
  {
    seq(|at|, k requires 0 <= k < |at| => at[k] + 1)
  }

  /**
   * No archived survivor, for every list of proposals: the kept ones appear in order (at increasing
   * positions), have distinct targets, rely on no kept or expired target other than themselves, and
   * every dropped proposal has a conflict one can point at.
   */
  lemma NoArchivedSurvivor(all: seq<ArchiveCandidate>) returns (at: seq<nat>)
    ensures |at| == |Kept(all, {}, all)|
    ensures forall k :: 0 <= k < |at| ==> at[k] < |all| && all[at[k]] == Kept(all, {}, all)[k]
    ensures forall k, l :: 0 <= k < l < |at| ==> at[k] < at[l]
    ensures Sound(Kept(all, {}, all), all)
    ensures forall c :: c in all ==> c in Kept(all, {}, all) || InConflict(c, Kept(all, {}, all), all)
  {
    at := KeptInOrder(all, {}, all);
    assert Targets([]) == {};
    KeptIsSound([], all, all);
    assert [] + Kept(all, {}, all) == Kept(all, {}, all);
  }

  /** The property the filter is for: no survivor of a kept proposal is archived by the list. */
  predicate SurvivorsSurvive(all: seq<ArchiveCandidate>) {
    forall c :: c in Kept(all, {}, all) && c.canonical.Some? ==>
      c.canonical.value.id !in Targets(Kept(all, {}, all)) && !Expires(all, c.canonical.value.id)
  }

  /** Targets taken by the time the filter reaches position n. */
  function TakenBefore(all: seq<ArchiveCandidate>, n: nat): set<nat>
    requires n <= |all|
  {
    if n == 0 then {}
    else
      var taken := TakenBefore(all, n - 1);
      if Keeps(all[n - 1], taken, all) then taken + {all[n - 1].memory.id} else taken
  }

  /**
   * The proposal at position i names its own target as the survivor, and nothing in the list stands in its
   * way: its target is neither taken nor expired, and no taken target relies on it.
   */
  predicate SelfReached(all: seq<ArchiveCandidate>, i: int)
    requires 0 <= i < |all|
  {
    && !Distinguishes(all[i])
    && all[i].memory.id !in TakenBefore(all, i)
    && !Expires(all, all[i].memory.id)
    && !ReliedOn(all, TakenBefore(all, i), all[i].memory.id)
  }

  /** The kept proposals are those the filter keeps at their position. */
  lemma {:induction false} KeptAt(all: seq<ArchiveCandidate>, n: nat)
    requires n <= |all|
    ensures forall c :: c in Kept(all[n..], TakenBefore(all, n), all) <==>
              exists i :: n <= i < |all| && all[i] == c && Keeps(c, TakenBefore(all, i), all)
    decreases |all| - n
  {
    hide Keeps;
    if n < |all| {
      KeptAt(all, n + 1);
      assert all[n..][0] == all[n] && all[n..][1..] == all[n + 1..];
      var rest := Kept(all[n + 1..], TakenBefore(all, n + 1), all);
      forall c
        ensures c in Kept(all[n..], TakenBefore(all, n), all) <==>
                  (c == all[n] && Keeps(c, TakenBefore(all, n), all)) || c in rest
      {
      }
    }
  }

  /** Survivors survive exactly when the filter reaches no proposal that is its own survivor. */
  lemma SurvivorsSurviveIff(all: seq<ArchiveCandidate>)
    ensures SurvivorsSurvive(all) <==> forall i :: 0 <= i < |all| ==> !SelfReached(all, i)
  {
    hide Expires, InConflict, Kept, ReliedOn;
    KeptAt(all, 0);
    assert all[0..] == all && TakenBefore(all, 0) == {};
    var kept := Kept(all, {}, all);
    if i :| 0 <= i < |all| && SelfReached(all, i) {
      assert Keeps(all[i], TakenBefore(all, i), all) && all[i] in kept;
      assert all[i].memory.id in Targets(kept);
    } else {
      var at := NoArchivedSurvivor(all);
      forall c | c in kept && c.canonical.Some?
        ensures c.canonical.value.id !in Targets(kept) && !Expires(all, c.canonical.value.id)
      {
        var i :| 0 <= i < |all| && all[i] == c && Keeps(c, TakenBefore(all, i), all);
        assert !SelfReached(all, i);
        ApartFromTargets(kept, all, c);
      }
    }
  }

  lemma ApartFromTargets(kept: seq<ArchiveCandidate>, all: seq<ArchiveCandidate>, c: ArchiveCandidate)
    requires Sound(kept, all) && c in kept && c.canonical.Some? && Distinguishes(c)
    ensures c.canonical.value.id !in Targets(kept) && !Expires(all, c.canonical.value.id)
  {
    var i :| 0 <= i < |kept| && kept[i] == c;
    if c.canonical.value.id in Targets(kept) {
      var d :| d in kept && d.memory.id == c.canonical.value.id;
      var j :| 0 <= j < |kept| && kept[j] == d;
      assert RelyingOn(kept[i], kept[j].memory.id);
    }
  }

  /** Whatever the list, survivors survive when every proposal distinguishes target and survivor. */
  lemma DistinguishedSurvive(all: seq<ArchiveCandidate>)
    requires forall c :: c in all ==> Distinguishes(c)
    ensures SurvivorsSurvive(all)
  {
    hide SurvivorsSurvive;
    SurvivorsSurviveIff(all);
  }

  lemma {:induction false} TakenAreTargets(all: seq<ArchiveCandidate>, n: nat)
    requires n <= |all|
    ensures TakenBefore(all, n) <= Targets(all[..n])
  {
    hide Keeps;
    if n > 0 {
      TakenAreTargets(all, n - 1);
      assert all[..n] == all[..n - 1] + [all[n - 1]];
      assert all[n - 1] in all[..n] && forall c :: c in all[..n - 1] ==> c in all[..n];
    }
  }

  /**
   * They do not when a proposal that is its own survivor has an unexpired target that no earlier proposal
   * targets, nor relies on while an earlier one targets the memory that does.
   */
  lemma UnobstructedSelfFails(all: seq<ArchiveCandidate>, i: nat)
    requires i < |all| && !Distinguishes(all[i])
    requires all[i].memory.id !in Targets(all[..i]) && !Expires(all, all[i].memory.id)
    requires !ReliedOn(all, Targets(all[..i]), all[i].memory.id)
    ensures !SurvivorsSurvive(all)
  {
    hide SurvivorsSurvive, Expires;
    TakenAreTargets(all, i);
    assert SelfReached(all, i);
    SurvivorsSurviveIff(all);
  }

  /** The smallest failing list: one unexpired proposal that is its own survivor is kept. */
  lemma SelfCanonicalArchived(c: ArchiveCandidate)
    requires !Distinguishes(c) && c.reason != Expired
    ensures Kept([c], {}, [c]) == [c] && !SurvivorsSurvive([c])
  {
    assert [c][..0] == [] && [c][1..] == [];
    assert Targets([]) == {};
    UnobstructedSelfFails([c], 0);
  }
}
