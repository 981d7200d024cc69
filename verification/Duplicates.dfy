/** Exact-duplicate and expiry proposals: apps/api/src/consolidation/consolidation-candidates.service.ts. */
module Duplicates {
  import opened Common
  import opened Processing
  import opened Consolidation

  function IdOf(m: Memory): nat { m.id }

  function VersionOf(m: Memory): real { m.version as real }

  /** Most recently updated first. */
  function NewestFirst(ms: seq<Memory>): (r: seq<Memory>)
    ensures |r| == |ms|
  {
    Sort(ms, VersionOf)
  }

  /** The recent memory and its rows with the same normalised text. */
  function Group(recent: Memory, rows: seq<Memory>): (group: seq<Memory>)
    ensures group != []
  {
    [recent] + Filter(rows, (m: Memory) => m.text == recent.text)
  }

  lemma GroupFacts(recent: Memory, rows: seq<Memory>)
    requires DistinctBy([recent] + rows, IdOf)
    ensures DistinctBy(Group(recent, rows), IdOf)
    ensures forall m :: m in Group(recent, rows) ==> m.text == recent.text
    ensures |Group(recent, rows)| < 2 ==> Group(recent, rows) == [recent]
  {
    var all := [recent] + rows;
    assert forall i :: 0 <= i < |rows| ==> all[i + 1] == rows[i];
    FilterMembers(rows, (m: Memory) => m.text == recent.text);
    FilterDistinctBy(rows, (m: Memory) => m.text == recent.text, IdOf);
    var kept := Filter(rows, (m: Memory) => m.text == recent.text);
    assert forall i :: 0 <= i < |kept| ==> kept[i] in rows;
    forall m | m in rows
      ensures m.id != recent.id
    {
      var i :| 0 <= i < |rows| && rows[i] == m;
      assert all[0] == recent && all[i + 1] == m;
    }
  }

  lemma NewestFirstFacts(group: seq<Memory>)
    requires DistinctBy(group, IdOf)
    ensures forall i, j :: 0 <= i < j < |group| ==> NewestFirst(group)[i].version >= NewestFirst(group)[j].version
    ensures forall i, j :: 0 <= i < j < |group| ==> NewestFirst(group)[i].id != NewestFirst(group)[j].id
    ensures forall m :: m in NewestFirst(group) <==> m in group
  {
    SortSorts(group, VersionOf);
    SortDistinct(group, VersionOf, IdOf);
    var sorted := NewestFirst(group);
    assert Descending(sorted, VersionOf) && DistinctBy(sorted, IdOf);
    forall i, j | 0 <= i < j < |sorted|
      ensures sorted[i].version >= sorted[j].version && sorted[i].id != sorted[j].id
    {
      assert VersionOf(sorted[i]) >= VersionOf(sorted[j]) && IdOf(sorted[i]) != IdOf(sorted[j]);
    }
  }

  /** What the proposals made so far satisfy. */
  predicate Proposals(candidates: seq<ArchiveCandidate>, seen: set<nat>) {
    && (forall c :: c in candidates ==> ExactDuplicateOf(c))
    && DistinctTargets(candidates)
    && Targets(candidates) == seen
  }

  lemma ProposeOne(candidates: seq<ArchiveCandidate>, seen: set<nat>, duplicate: Memory, canonical: Memory)
    requires Proposals(candidates, seen) && duplicate.id !in seen
    requires duplicate.id != canonical.id && duplicate.text == canonical.text && canonical.version >= duplicate.version
    ensures Proposals(candidates + [ArchiveCandidate(duplicate, Some(canonical), ExactDuplicate, None)], seen + {duplicate.id})
  {
  }

  /** A proposal archives an equal, not newer memory in favour of a different one. */
  predicate ExactDuplicateOf(c: ArchiveCandidate) {
    && c.canonical.Some?
    && c.reason == ExactDuplicate
    && Distinguishes(c)
    && c.memory.text == c.canonical.value.text
    && c.canonical.value.version >= c.memory.version
  }

  /** Every memory of the group but its newest is proposed. */
  predicate Covered(group: seq<Memory>, proposed: set<nat>)
    requires group != []
  {
    forall m :: m in group && m != NewestFirst(group)[0] ==> m.id in proposed
  }

  /**
   * `rows[i]` are the live rows the duplicate query returns for `recent[i]`: other memories, each once.
   * Every proposal is a true duplicate with a distinct, newest survivor, no memory is proposed twice,
   * and of every group of duplicates only the newest is spared.
   */
  method FindDuplicateCandidates(recent: seq<Memory>, rows: seq<seq<Memory>>)
    returns (candidates: seq<ArchiveCandidate>)
    requires |rows| == |recent|
    requires forall i :: 0 <= i < |recent| ==> DistinctBy([recent[i]] + rows[i], IdOf)
    ensures forall c :: c in candidates ==> ExactDuplicateOf(c)
    ensures DistinctTargets(candidates)
    ensures forall i :: 0 <= i < |recent| ==> Covered(Group(recent[i], rows[i]), Targets(candidates))
    ensures forall i, m :: 0 <= i < |recent| && Outdated(m, recent[i], rows[i]) ==> m.id in Targets(candidates)
  {
    hide ExactDuplicateOf, Covered, Group, DistinctBy, Targets;
    candidates := [];
    var seenCandidateIds: set<nat> := {};
    assert Proposals(candidates, seenCandidateIds) by {
      NoProposals();
    }
    for i := 0 to |recent|
      invariant Proposals(candidates, seenCandidateIds)
      invariant forall k :: 0 <= k < i ==> Covered(Group(recent[k], rows[k]), seenCandidateIds)
    {
      ghost var before := seenCandidateIds;
      candidates, seenCandidateIds := ProposeGroup(recent[i], rows[i], candidates, seenCandidateIds);
      forall k | 0 <= k < i
        ensures Covered(Group(recent[k], rows[k]), seenCandidateIds)
      {
        CoveredGrows(Group(recent[k], rows[k]), before, seenCandidateIds);
      }
    }
    forall i, m | 0 <= i < |recent| && Outdated(m, recent[i], rows[i])
      ensures m.id in seenCandidateIds
    {
      OutdatedCovered(m, recent[i], rows[i], seenCandidateIds);
    }
    TargetsSeen(candidates, seenCandidateIds);
  }

  lemma TargetsSeen(candidates: seq<ArchiveCandidate>, seen: set<nat>)
    requires Proposals(candidates, seen)
    ensures Targets(candidates) == seen
  {
  }

  /** The recent memory or one found for it, with the recent one's text, when another of them with that text is newer. */
  predicate Outdated(m: Memory, recent: Memory, rows: seq<Memory>) {
    && (m == recent || m in rows) && m.text == recent.text
    && ((recent.version > m.version) || exists n :: n in rows && n.text == recent.text && n.version > m.version)
  }

  lemma OutdatedCovered(m: Memory, recent: Memory, rows: seq<Memory>, proposed: set<nat>)
    requires DistinctBy([recent] + rows, IdOf) && Covered(Group(recent, rows), proposed) && Outdated(m, recent, rows)
    ensures m.id in proposed
  {
    hide NewestFirst;
    var group := Group(recent, rows);
    GroupFacts(recent, rows);
    NewestFirstFacts(group);
    FilterMembers(rows, (x: Memory) => x.text == recent.text);
    var sorted := NewestFirst(group);
    assert recent in group && m in group;
    assert forall n :: n in group ==> n in sorted && n.version <= sorted[0].version;
  }

  lemma CoveredGrows(group: seq<Memory>, proposed: set<nat>, more: set<nat>)
    requires group != [] && Covered(group, proposed) && proposed <= more
    ensures Covered(group, more)
  {
  }

  lemma NoProposals()
    ensures Proposals([], {})
  {
  }

  /** One recent memory: the newest of its group survives, the others are proposed unless seen before. */
  method ProposeGroup(recent: Memory, rows: seq<Memory>, prior: seq<ArchiveCandidate>, seen: set<nat>)
    returns (candidates: seq<ArchiveCandidate>, seenCandidateIds: set<nat>)
    requires DistinctBy([recent] + rows, IdOf) && Proposals(prior, seen)
    ensures Proposals(candidates, seenCandidateIds) && seen <= seenCandidateIds
    ensures Covered(Group(recent, rows), seenCandidateIds)
  {
    hide ExactDuplicateOf, Proposals, Targets, NewestFirst, Group;
    candidates, seenCandidateIds := prior, seen;
    var group := Group(recent, rows);
    GroupFacts(recent, rows);
    var sorted := NewestFirst(group);
    NewestFirstFacts(group);
    if |group| < 2 {
      assert |sorted| == 1 && recent in sorted;
      return;
    }
    var canonical := sorted[0];
    for j := 1 to |sorted|
      invariant Proposals(candidates, seenCandidateIds) && seen <= seenCandidateIds
      invariant forall k :: 1 <= k < j ==> sorted[k].id in seenCandidateIds
    {
      var duplicate := sorted[j];
      if duplicate.id in seenCandidateIds {
        continue;
      }
      assert duplicate in sorted && canonical in sorted;
      ProposeOne(candidates, seenCandidateIds, duplicate, canonical);
      candidates := candidates + [ArchiveCandidate(duplicate, Some(canonical), ExactDuplicate, None)];
      seenCandidateIds := seenCandidateIds + {duplicate.id};
    }
  }

  /** `findExpiredCandidates`: proposals without a survivor, exactly for the memories past their expiry. */
  function FindExpiredCandidates(memories: seq<Memory>, now: int): seq<ArchiveCandidate> {
    if memories == [] then []
    else
      (if Unexpired(memories[0].expiresAt, now) then [] else [ArchiveCandidate(memories[0], None, Expired, None)])
      + FindExpiredCandidates(memories[1..], now)
  }

  lemma {:induction false} ExpiredExactly(memories: seq<Memory>, now: int)
    ensures forall c :: c in FindExpiredCandidates(memories, now) ==>
              c.canonical.None? && c.reason == Expired && c.memory in memories && !Unexpired(c.memory.expiresAt, now)
    ensures forall m :: m in memories && !Unexpired(m.expiresAt, now) ==> m.id in Targets(FindExpiredCandidates(memories, now))
  {
    if memories != [] {
      ExpiredExactly(memories[1..], now);
      assert memories == [memories[0]] + memories[1..];
      var all, rest := FindExpiredCandidates(memories, now), FindExpiredCandidates(memories[1..], now);
      assert forall c :: c in rest ==> c in all;
      if !Unexpired(memories[0].expiresAt, now) {
        assert ArchiveCandidate(memories[0], None, Expired, None) in all;
      }
    }
  }
}
