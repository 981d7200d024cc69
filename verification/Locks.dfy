/**
 * Explicit row locks: apps/api/src/common/db-locks.ts and the transactions that use it. A transaction
 * keeps what it locked until it ends; locks are taken one row at a time.
 */
module Locks {
  import opened Common

  datatype Lock = OwnerRow(id: nat) | RunRow(id: nat) | SuggestionRow(id: nat) | RequestRow(id: nat) | VoiceSessionRow(id: nat) | MemoryRow(id: nat)

  function Rank(l: Lock): nat {
    match l
    case OwnerRow(_) => 0
    case RunRow(_) => 1
    case SuggestionRow(_) => 2
    case RequestRow(_) => 3
    case VoiceSessionRow(_) => 4
    case MemoryRow(_) => 5
  }

  /** The common lock order: by table, then by id. */
  predicate Before(a: Lock, b: Lock) {
    Rank(a) < Rank(b) || (Rank(a) == Rank(b) && a.id < b.id)
  }

  predicate Increasing(plan: seq<Lock>) {
    forall i, j :: 0 <= i < j < |plan| ==> Before(plan[i], plan[j])
  }

  // ---------------------------------------------------------------- what the transactions lock

  /**
   * The transactions of the services: settings, marks and accepted chat turns lock the owner; extraction commits and
   * reconciliations the owner and a run; consolidation and review the owner, perhaps a suggestion, and
   * memories; disclosure decisions a request; saved voice messages a voice session.
   */
  datatype Work =
    | OnOwner(owner: nat)
    | OnRun(owner: nat, run: nat)
    | OnMemories(owner: nat, suggestion: Option<nat>, ids: seq<nat>)
    | OnRequest(request: nat)
    | OnVoiceSession(session: nat)

  function Negated(id: nat): real { -(id as real) }

  /** `[...new Set(ids)].sort()`. */
  function SortedIds(ids: seq<nat>): seq<nat> {
    Sort(Unique(ids), Negated)
  }

  function MemoryRows(ids: seq<nat>): (rows: seq<Lock>)
    ensures |rows| == |ids| && forall i :: 0 <= i < |ids| ==> rows[i] == MemoryRow(ids[i])
  {
    if ids == [] then [] else [MemoryRow(ids[0])] + MemoryRows(ids[1..])
  }

  /** A claimed suggestion is locked by its update, after the owner. */
  function FirstLocks(owner: nat, suggestion: Option<nat>): seq<Lock> {
    [OwnerRow(owner)] + (if suggestion.Some? then [SuggestionRow(suggestion.value)] else [])
  }

  function LocksOf(work: Work): seq<Lock> {
    match work
    case OnOwner(owner) => [OwnerRow(owner)]
    case OnRun(owner, run) => [OwnerRow(owner), RunRow(run)]
    case OnMemories(owner, suggestion, ids) =>
      FirstLocks(owner, suggestion) + MemoryRows(SortedIds(ids))
    case OnRequest(request) => [RequestRow(request)]
    case OnVoiceSession(session) => [VoiceSessionRow(session)]
  }

  function Itself(id: nat): nat { id }

  lemma SortedIdsAscend(ids: seq<nat>)
    ensures forall i, j :: 0 <= i < j < |SortedIds(ids)| ==> SortedIds(ids)[i] < SortedIds(ids)[j]
    ensures forall id :: id in SortedIds(ids) <==> id in ids
  {
    UniqueExactly(ids);
    SortSorts(Unique(ids), Negated);
    assert DistinctBy(Unique(ids), Itself);
    SortDistinct(Unique(ids), Negated, Itself);
    var sorted := SortedIds(ids);
    forall i, j | 0 <= i < j < |sorted|
      ensures sorted[i] < sorted[j]
    {
      assert Negated(sorted[i]) >= Negated(sorted[j]) && Itself(sorted[i]) != Itself(sorted[j]);
    }
  }

  lemma IncreasingAppend(xs: seq<Lock>, ys: seq<Lock>)
    requires Increasing(xs) && Increasing(ys)
    requires forall i, j :: 0 <= i < |xs| && 0 <= j < |ys| ==> Before(xs[i], ys[j])
    ensures Increasing(xs + ys)
  {
  }

  lemma MemoryRowsIncrease(ids: seq<nat>)
    requires forall i, j :: 0 <= i < j < |ids| ==> ids[i] < ids[j]
    ensures Increasing(MemoryRows(ids))
  {
  }

  /** Every transaction of the services takes its locks in the common order, duplicates in its ids or not. */
  lemma WorkIncreases(work: Work)
    ensures Increasing(LocksOf(work))
    ensures work.OnMemories? ==> forall id :: id in work.ids ==> MemoryRow(id) in LocksOf(work)
  {
    if work.OnMemories? {
      hide SortedIds, Before;
      SortedIdsAscend(work.ids);
      var rows := MemoryRows(SortedIds(work.ids));
      MemoryRowsIncrease(SortedIds(work.ids));
      var first := FirstLocks(work.owner, work.suggestion);
      FirstLocksLead(work.owner, work.suggestion, rows);
      IncreasingAppend(first, rows);
      forall id | id in work.ids
        ensures MemoryRow(id) in first + rows
      {
        var i :| 0 <= i < |SortedIds(work.ids)| && SortedIds(work.ids)[i] == id;
        assert rows[i] == MemoryRow(id) && rows[i] in rows;
      }
    }
  }

  lemma MemoryRowsExactly(ids: seq<nat>, l: Lock)
    ensures l in MemoryRows(SortedIds(ids)) <==> l.MemoryRow? && l.id in ids
  {
    hide SortedIds;
    SortedIdsAscend(ids);
    var sorted, rows := SortedIds(ids), MemoryRows(SortedIds(ids));
    if l in rows {
      var i :| 0 <= i < |rows| && rows[i] == l;
      assert sorted[i] in sorted;
    }
    if l.MemoryRow? && l.id in sorted {
      var i :| 0 <= i < |sorted| && sorted[i] == l.id;
      assert rows[i] == l;
    }
  }

  /** Exactly the rows each transaction is to lock are in its plan. */
  lemma WorkLocks(work: Work, l: Lock)
    ensures l in LocksOf(work) <==>
              match work
              case OnOwner(owner) => l == OwnerRow(owner)
              case OnRun(owner, run) => l == OwnerRow(owner) || l == RunRow(run)
              case OnMemories(owner, suggestion, ids) =>
                l == OwnerRow(owner) || (suggestion.Some? && l == SuggestionRow(suggestion.value)) || (l.MemoryRow? && l.id in ids)
              case OnRequest(request) => l == RequestRow(request)
              case OnVoiceSession(session) => l == VoiceSessionRow(session)
  {
    hide MemoryRows, SortedIds;
    if work.OnMemories? {
      MemoryRowsExactly(work.ids, l);
    }
  }

  lemma FirstLocksLead(owner: nat, suggestion: Option<nat>, rows: seq<Lock>)
    requires forall i :: 0 <= i < |rows| ==> rows[i].MemoryRow?
    ensures Increasing(FirstLocks(owner, suggestion))
    ensures forall i, j :: 0 <= i < |FirstLocks(owner, suggestion)| && 0 <= j < |rows| ==>
              Before(FirstLocks(owner, suggestion)[i], rows[j])
  {
  }

  // ---------------------------------------------------------------- transactions

  /** A transaction holds the first `next` locks of its plan until it is done. */
  datatype Tx = Tx(plan: seq<Lock>, next: nat, done: bool)

  type State = seq<Tx>

  predicate Holds(tx: Tx, l: Lock) {
    !tx.done && tx.next <= |tx.plan| && l in tx.plan[..tx.next]
  }

  predicate Free(s: State, l: Lock) {
    forall i :: 0 <= i < |s| ==> !Holds(s[i], l)
  }

  predicate Wants(tx: Tx) {
    !tx.done && tx.next < |tx.plan|
  }

  datatype Step = Begin(work: Work) | Acquire(tx: nat) | Finish(tx: nat) | Abort(tx: nat)

  /** A lock is granted only while nobody holds it; a transaction finishes once it has all its locks. */
  predicate Legal(s: State, step: Step) {
    match step
    case Begin(_) => true
    case Acquire(tx) => tx < |s| && Wants(s[tx]) && Free(s, s[tx].plan[s[tx].next])
    case Finish(tx) => tx < |s| && !s[tx].done && s[tx].next == |s[tx].plan|
    case Abort(tx) => tx < |s| && !s[tx].done
  }

  function Apply(s: State, step: Step): State
    requires Legal(s, step)
  {
    match step
    case Begin(work) => s + [Tx(LocksOf(work), 0, false)]
    case Acquire(tx) => s[tx := s[tx].(next := s[tx].next + 1)]
    case Finish(tx) => s[tx := s[tx].(done := true)]
    case Abort(tx) => s[tx := s[tx].(done := true)]
  }

  ghost predicate Run(states: seq<State>, steps: seq<Step>) {
    && |states| == |steps| + 1
    && forall i :: 0 <= i < |steps| ==> Legal(states[i], steps[i]) && states[i + 1] == Apply(states[i], steps[i])
  }

  /** Plans are in order, and no two transactions hold the same lock. */
  ghost predicate Ordered(s: State) {
    && (forall i :: 0 <= i < |s| ==> Increasing(s[i].plan) && s[i].next <= |s[i].plan|)
    && forall i, j :: 0 <= i < j < |s| ==> Exclusive(s[i], s[j])
  }

  ghost predicate Exclusive(a: Tx, b: Tx) {
    forall l :: Holds(a, l) ==> !Holds(b, l)
  }

  lemma StepKeepsOrder(s: State, step: Step)
    requires Ordered(s) && Legal(s, step)
    ensures Ordered(Apply(s, step))
  {
    hide LocksOf, Increasing;
    match step
    case Begin(work) => WorkIncreases(work);
    case Acquire(tx) =>
      var before, after := s[tx], s[tx].(next := s[tx].next + 1);
      assert after.plan[..after.next] == before.plan[..before.next] + [before.plan[before.next]];
      forall i | 0 <= i < |s| && i != tx
        ensures Exclusive(s[i], after) && Exclusive(after, s[i])
      {
        assert i < tx ==> Exclusive(s[i], before);
        assert tx < i ==> Exclusive(before, s[i]);
      }
    case _ =>
  }

  lemma {:induction false} Reachable(states: seq<State>, steps: seq<Step>, k: nat)
    requires Run(states, steps) && k < |states| && states[0] == []
    ensures Ordered(states[k])
  {
    hide Apply, Legal, Ordered;
    if k == 0 {
      NoTransactions();
    } else {
      Reachable(states, steps, k - 1);
      StepKeepsOrder(states[k - 1], steps[k - 1]);
    }
  }

  lemma NoTransactions()
    ensures Ordered([])
  {
  }

  // ---------------------------------------------------------------- no cycle, always progress

  function Awaited(tx: Tx): Lock
    requires Wants(tx)
  {
    tx.plan[tx.next]
  }

  /** Transaction i waits for a lock that j holds. */
  predicate WaitsFor(s: State, i: nat, j: nat) {
    i < |s| && j < |s| && Wants(s[i]) && Holds(s[j], Awaited(s[i]))
  }

  /** Whoever is waited for awaits only later locks. */
  lemma WaitsForLater(s: State, i: nat, j: nat)
    requires Ordered(s) && WaitsFor(s, i, j) && Wants(s[j])
    ensures Before(Awaited(s[i]), Awaited(s[j]))
  {
  }

  predicate WaitPath(s: State, path: seq<nat>) {
    forall k :: 0 <= k < |path| - 1 ==> WaitsFor(s, path[k], path[k + 1])
  }

  lemma {:induction false} PathClimbs(s: State, path: seq<nat>, k: nat)
    requires Ordered(s) && WaitPath(s, path) && 0 < k < |path| && path[k] < |s| && Wants(s[path[k]])
    ensures path[0] < |s| && Wants(s[path[0]]) && Before(Awaited(s[path[0]]), Awaited(s[path[k]]))
  {
    assert WaitsFor(s, path[k - 1], path[k]);
    WaitsForLater(s, path[k - 1], path[k]);
    if k > 1 {
      PathClimbs(s, path, k - 1);
    }
  }

  /** The wait-for graph of every reachable state is acyclic. */
  lemma NoDeadlock(states: seq<State>, steps: seq<Step>, k: nat, path: seq<nat>)
    requires Run(states, steps) && k < |states| && states[0] == []
    requires |path| >= 2 && WaitPath(states[k], path)
    ensures path[0] != path[|path| - 1]
  {
    hide Run, Ordered, Holds;
    Reachable(states, steps, k);
    assert WaitsFor(states[k], path[0], path[1]);
    if path[0] == path[|path| - 1] {
      PathClimbs(states[k], path, |path| - 1);
    }
  }

  /** The transaction can take its next lock, or has them all and can finish. */
  predicate CanProceed(s: State, i: nat) {
    i < |s| && (Legal(s, Acquire(i)) || Legal(s, Finish(i)))
  }

  function Proceed(i: nat, s: State): Step
    requires CanProceed(s, i)
  {
    if Legal(s, Acquire(i)) then Acquire(i) else Finish(i)
  }

  /** Waiting transactions whose awaited lock comes after `l`. */
  function Above(s: State, l: Lock): set<nat> {
    set i | 0 <= i < |s| && Wants(s[i]) && Before(l, Awaited(s[i]))
  }

  /** From any unfinished transaction the wait-for edges lead to one that can proceed. */
  lemma {:induction false} FindRunnable(s: State, i: nat) returns (r: nat)
    requires Ordered(s) && i < |s| && !s[i].done
    ensures CanProceed(s, r)
    decreases if Wants(s[i]) then |Above(s, Awaited(s[i]))| + 1 else 0
  {
    if CanProceed(s, i) {
      r := i;
    } else {
      assert Wants(s[i]) && !Free(s, Awaited(s[i]));
      var j: nat :| j < |s| && Holds(s[j], Awaited(s[i]));
      if Wants(s[j]) {
        WaitsForLater(s, i, j);
        assert j in Above(s, Awaited(s[i])) && j !in Above(s, Awaited(s[j]));
        assert Above(s, Awaited(s[j])) < Above(s, Awaited(s[i]));
        SmallerSet(Above(s, Awaited(s[j])), Above(s, Awaited(s[i])));
      }
      r := FindRunnable(s, j);
    }
  }

  lemma SmallerSet(a: set<nat>, b: set<nat>)
    requires a < b
    ensures |a| < |b|
  {
    assert b == a + (b - a);
    assert b - a != {};
  }

  function Unfinished(s: State): nat {
    if s == [] then 0
    else Unfinished(s[..|s| - 1]) + Weight(s[|s| - 1])
  }

  /** Locks still to take, and the commit. */
  function Weight(tx: Tx): nat {
    if tx.done then 0 else if tx.next <= |tx.plan| then |tx.plan| - tx.next + 1 else 1
  }

  lemma {:induction false} Lighter(s: State, i: nat, tx: Tx)
    requires i < |s| && Weight(tx) < Weight(s[i])
    ensures Unfinished(s[i := tx]) < Unfinished(s)
  {
    var n := |s| - 1;
    if i < n {
      Lighter(s[..n], i, tx);
      assert s[i := tx][..n] == s[..n][i := tx];
    } else {
      assert s[i := tx][..n] == s[..n];
    }
  }

  predicate AllDone(s: State) {
    forall i :: 0 <= i < |s| ==> s[i].done
  }

  /** Proceeding takes one lock, or commits. */
  lemma ProceedLightens(s: State, r: nat)
    requires Ordered(s) && CanProceed(s, r)
    ensures Legal(s, Proceed(r, s)) && Ordered(Apply(s, Proceed(r, s)))
    ensures Unfinished(Apply(s, Proceed(r, s))) < Unfinished(s)
  {
    hide Ordered, Free;
    StepKeepsOrder(s, Proceed(r, s));
    Lighter(s, r, Apply(s, Proceed(r, s))[r]);
  }

  lemma RunCons(s: State, step: Step, states: seq<State>, steps: seq<Step>)
    requires Legal(s, step) && Run(states, steps) && states[0] == Apply(s, step)
    ensures Run([s] + states, [step] + steps)
  {
    hide Legal, Apply;
    forall k | 0 <= k < |[step] + steps|
      ensures Legal(([s] + states)[k], ([step] + steps)[k]) && ([s] + states)[k + 1] == Apply(([s] + states)[k], ([step] + steps)[k])
    {
      if k > 0 {
        assert ([s] + states)[k] == states[k - 1] && ([step] + steps)[k] == steps[k - 1] && ([s] + states)[k + 1] == states[k];
      }
    }
  }

  /** Every transaction gets to commit: from any reachable state some order of grants finishes them all, without an abort. */
  lemma {:induction false} AllCanFinish(s: State) returns (states: seq<State>, steps: seq<Step>)
    requires Ordered(s)
    ensures Run(states, steps) && states[0] == s && AllDone(states[|states| - 1])
    ensures forall k :: 0 <= k < |steps| ==> steps[k].Acquire? || steps[k].Finish?
    decreases Unfinished(s)
  {
    hide Ordered, Legal, Apply, CanProceed;
    if AllDone(s) {
      states, steps := [s], [];
    } else {
      var i :| 0 <= i < |s| && !s[i].done;
      var r := FindRunnable(s, i);
      var step := Proceed(r, s);
      ProceedLightens(s, r);
      var laterStates, laterSteps := AllCanFinish(Apply(s, step));
      RunCons(s, step, laterStates, laterSteps);
      states, steps := [s] + laterStates, [step] + laterSteps;
    }
  }

  /** In every reachable state with an unfinished transaction, some unfinished transaction can proceed. */
  lemma AlwaysProgress(states: seq<State>, steps: seq<Step>, k: nat, i: nat) returns (r: nat)
    requires Run(states, steps) && k < |states| && states[0] == []
    requires i < |states[k]| && !states[k][i].done
    ensures CanProceed(states[k], r) && !states[k][r].done
  {
    hide Run, Ordered, Free;
    Reachable(states, steps, k);
    r := FindRunnable(states[k], i);
  }
}
