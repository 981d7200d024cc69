/** No memory leaves discovery before all its pairs were judged. */
module InspectionRuns {
  import opened Common
  import opened Processing
  import opened Consolidation
  import opened Inspection
  import Judge

  /** Stored readings of the clock are in the past. */
  predicate ClockOk(s: State) {
    && (forall id :: id in s.rows ==>
          s.rows[id].id == id && s.rows[id].relevantAt <= s.now &&
          (s.rows[id].inspectedAt.Some? ==> s.rows[id].inspectedAt.value <= s.now))
    && (forall run :: run in s.runs ==> s.runs[run].startedAt <= s.now)
  }

  /** A snapshot with the row's relevance stamp has the row's content. */
  predicate Agrees(s: State, source: Row) {
    && source.id in s.rows && source.relevantAt <= s.now
    && (s.rows[source.id].relevantAt == source.relevantAt ==> s.rows[source.id].fields == source.fields)
  }

  predicate SourcesOk(s: State) {
    forall run, row :: run in s.runs && s.runs[run].sources.Some? && row in s.runs[run].sources.value ==> Agrees(s, row)
  }

  /** Run `run` judged every one of its pairs that touch the source `source`. */
  predicate FullyJudged(job: JobRun, source: Row) {
    && job.sources.Some? && source in job.sources.value && job.verdict.Some?
    && Judge.AllJudged(source.id, job.verdict.value.pairs, job.verdict.value.judgedPairs)
  }

  /** The ids a verdict completes are sources all of whose pairs were judged. */
  predicate VerdictOk(job: JobRun) {
    job.verdict.Some? ==>
      job.sources.Some? &&
      forall row :: row in job.sources.value && row.id in job.verdict.value.completed ==> FullyJudged(job, row)
  }

  predicate VerdictsOk(s: State) {
    forall run :: run in s.runs ==> VerdictOk(s.runs[run])
  }

  /** Run `run` read the memory with the content it has now and judged all its pairs. */
  predicate InspectedBy(s: State, id: nat, run: nat, source: Row) {
    && id in s.rows && run in s.runs
    && source.id == id && source.relevantAt == s.rows[id].relevantAt && source.fields == s.rows[id].fields
    && FullyJudged(s.runs[run], source)
  }

  ghost predicate Accounted(s: State, id: nat) {
    id in s.rows && !NeedsInspection(s.rows[id]) ==> exists run, source :: InspectedBy(s, id, run, source)
  }

  // ---------------------------------------------------------------- the marking loop

  predicate Marks(source: Row, id: nat, relevantAt: int, completed: seq<nat>) {
    source.id == id && id in completed && source.relevantAt == relevantAt
  }

  /** A row changes only in its inspection mark, and only for a completed source with its relevance stamp. */
  lemma {:induction false} MarkAllEffect(rows: map<nat, Row>, sources: seq<Row>, completed: seq<nat>, startedAt: int, id: nat)
    requires id in rows
    ensures MarkAll(rows, sources, completed, startedAt).Keys == rows.Keys
    ensures var row := MarkAll(rows, sources, completed, startedAt)[id];
            row == rows[id] ||
            (row == rows[id].(inspectedAt := Some(startedAt)) &&
             exists source :: source in sources && Marks(source, id, rows[id].relevantAt, completed))
  {
    if sources != [] {
      var n := |sources| - 1;
      MarkAllEffect(rows, sources[..n], completed, startedAt, id);
      assert sources == sources[..n] + [sources[n]];
      var mid := MarkAll(rows, sources[..n], completed, startedAt);
      if MarkOne(mid, sources[n], completed, startedAt)[id] != mid[id] {
        assert Marks(sources[n], id, rows[id].relevantAt, completed);
        assert sources[n] in sources;
      } else if mid[id] != rows[id] {
        var source :| source in sources[..n] && Marks(source, id, rows[id].relevantAt, completed);
        assert source in sources;
      }
    }
  }

  /** What any step does to a row that exists. */
  predicate RowMoves(row: Row, next: Row, now: int) {
    && next.id == row.id
    && (next.relevantAt == row.relevantAt || next.relevantAt == now + 1)
    && (next.relevantAt == row.relevantAt ==> next.fields == row.fields)
  }

  lemma StepMovesRow(s: State, step: Step, id: nat)
    requires ClockOk(s) && Legal(s, step) && id in s.rows
    ensures id in Apply(s, step).rows && RowMoves(s.rows[id], Apply(s, step).rows[id], s.now)
    ensures s.now <= Apply(s, step).now
    ensures Apply(s, step).rows[id].relevantAt == s.now + 1 ==> Apply(s, step).now == s.now + 1
    ensures !step.Finish? ==> Apply(s, step).rows[id].inspectedAt == s.rows[id].inspectedAt
  {
    hide MarkAll, SetFields, Judge.CompletedIds, Judge.SelectedPairs, Relevant;
    match step
    case Update(k, request) => if k == id { StampTracksContent(s.rows[id], request, s.now + 1); }
    case Finish(run) =>
      if s.selected == s.runs[run].system && s.runs[run].sources.Some? {
        MarkAllEffect(s.rows, s.runs[run].sources.value, s.runs[run].verdict.value.completed, s.runs[run].startedAt, id);
      }
    case _ =>
  }

  lemma StepKeepsClock(s: State, step: Step)
    requires ClockOk(s) && Legal(s, step)
    ensures ClockOk(Apply(s, step))
  {
    hide MarkAll, SetFields, Judge.CompletedIds, Judge.SelectedPairs, Relevant, RowMoves;
    match step
    case Finish(run) =>
      if s.selected == s.runs[run].system && s.runs[run].sources.Some? {
        var job := s.runs[run];
        forall id | id in s.rows
          ensures MarkAll(s.rows, job.sources.value, job.verdict.value.completed, job.startedAt).Keys == s.rows.Keys
          ensures var row := MarkAll(s.rows, job.sources.value, job.verdict.value.completed, job.startedAt)[id];
                  row == s.rows[id] || row == s.rows[id].(inspectedAt := Some(job.startedAt))
        {
          MarkAllEffect(s.rows, job.sources.value, job.verdict.value.completed, job.startedAt, id);
        }
        KeysOnly(s.rows, job.sources.value, job.verdict.value.completed, job.startedAt);
      }
    case _ =>
  }

  lemma {:induction false} KeysOnly(rows: map<nat, Row>, sources: seq<Row>, completed: seq<nat>, startedAt: int)
    ensures MarkAll(rows, sources, completed, startedAt).Keys == rows.Keys
  {
    if sources != [] {
      KeysOnly(rows, sources[..|sources| - 1], completed, startedAt);
    }
  }

  /** Which runs a step leaves with which sources and verdicts. */
  lemma StepKeepsRuns(s: State, step: Step, run: nat)
    requires Legal(s, step) && run in s.runs
    ensures run in Apply(s, step).runs
    ensures s.runs[run].sources.Some? ==> Apply(s, step).runs[run].sources == s.runs[run].sources
    ensures s.runs[run].verdict.Some? ==> Apply(s, step).runs[run].verdict == s.runs[run].verdict || s.runs[run].sources.None?
  {
    hide MarkAll, SetFields, Judge.CompletedIds, Judge.SelectedPairs, Relevant;
  }

  lemma StepKeepsSources(s: State, step: Step)
    requires ClockOk(s) && SourcesOk(s) && Legal(s, step)
    ensures SourcesOk(Apply(s, step))
  {
    hide RowMoves, Updated;
    var t := Apply(s, step);
    forall run, row | run in t.runs && t.runs[run].sources.Some? && row in t.runs[run].sources.value
      ensures Agrees(t, row)
    {
      SourceWas(s, step, run, row);
      StepMovesRow(s, step, row.id);
      MovedAgrees(s, t, row);
    }
  }

  /** Every source was read before, or is read now as the current row. */
  lemma SourceWas(s: State, step: Step, run: nat, row: Row)
    requires ClockOk(s) && SourcesOk(s) && Legal(s, step)
    requires run in Apply(s, step).runs && Apply(s, step).runs[run].sources.Some? && row in Apply(s, step).runs[run].sources.value
    ensures Agrees(s, row)
  {
    hide MarkAll, SetFields, Judge.CompletedIds, Judge.SelectedPairs, Relevant;
  }

  lemma MovedAgrees(s: State, t: State, row: Row)
    requires Agrees(s, row) && row.id in t.rows && s.now <= t.now
    requires RowMoves(s.rows[row.id], t.rows[row.id], s.now)
    ensures Agrees(t, row)
  {
  }

  // ---------------------------------------------------------------- verdicts

  lemma JudgedVerdictOk(job: JobRun, task: Judge.Task, pairs: seq<Judge.Pair>, judgedPairs: seq<Judge.Pair>, atEnd: int, secretLike: set<nat>)
    requires job.sources.Some?
    requires job.verdict == Some(Verdict(pairs, judgedPairs,
               Judge.CompletedIds(AsMemories(job.sources.value, secretLike), task, atEnd, pairs, judgedPairs)))
    ensures VerdictOk(job)
  {
    hide Judge.Permitted, Judge.CompletedIds;
    var memories := AsMemories(job.sources.value, secretLike);
    Judge.CompletedExactly(memories, task, atEnd, pairs, judgedPairs);
    forall row | row in job.sources.value && row.id in job.verdict.value.completed
      ensures FullyJudged(job, row)
    {
      var m :| m in memories && m.id == row.id && Judge.Permitted(m, task.maxSensitivity, atEnd) && Judge.AllJudged(m.id, pairs, judgedPairs);
    }
  }

  lemma StepKeepsVerdicts(s: State, step: Step)
    requires VerdictsOk(s) && Legal(s, step)
    ensures VerdictsOk(Apply(s, step))
  {
    hide MarkAll, SetFields, Judge.CompletedIds, Judge.SelectedPairs, Relevant;
    match step
    case JudgeSources(run, task, pairs, atPairs, judged, atEnd, secretLike) =>
      JudgedVerdictOk(Apply(s, step).runs[run], task, pairs, Judge.SelectedPairs(pairs, task, atPairs)[..judged], atEnd, secretLike);
    case Finish(run) => FinishedVerdict(s.runs[run]);
    case _ =>
  }

  lemma FinishedVerdict(job: JobRun)
    requires VerdictOk(job)
    ensures VerdictOk(job.(finished := true))
  {
  }

  // ---------------------------------------------------------------- the inspection invariant

  lemma StepKeepsAccounted(s: State, step: Step, id: nat)
    requires ClockOk(s) && SourcesOk(s) && VerdictsOk(s) && Accounted(s, id) && Legal(s, step)
    ensures Accounted(Apply(s, step), id)
  {
    hide Updated, MarkAll, Judge.CompletedIds, Judge.SelectedPairs, VerdictsOk, SourcesOk, InspectedBy, RowMoves;
    var t := Apply(s, step);
    if id in t.rows && !NeedsInspection(t.rows[id]) {
      if id !in s.rows {
        NewRowsNeedInspection(s, step, id);
      } else {
        StepMovesRow(s, step, id);
        if t.rows[id].inspectedAt == s.rows[id].inspectedAt {
          StampStays(s, t, id);
          var run, source :| InspectedBy(s, id, run, source);
          InspectionStays(s, step, id, run, source);
        } else {
          MarkedNow(s, step, id);
        }
      }
    }
  }

  lemma NewRowsNeedInspection(s: State, step: Step, id: nat)
    requires Legal(s, step) && id !in s.rows && id in Apply(s, step).rows
    ensures NeedsInspection(Apply(s, step).rows[id])
  {
    hide Updated, MarkAll, Judge.CompletedIds, Judge.SelectedPairs;
    match step
    case Finish(run) =>
      if s.selected == s.runs[run].system && s.runs[run].sources.Some? {
        KeysOnly(s.rows, s.runs[run].sources.value, s.runs[run].verdict.value.completed, s.runs[run].startedAt);
      }
    case _ =>
  }

  lemma StampStays(s: State, t: State, id: nat)
    requires ClockOk(s) && id in s.rows && id in t.rows && RowMoves(s.rows[id], t.rows[id], s.now)
    requires t.rows[id].inspectedAt == s.rows[id].inspectedAt && !NeedsInspection(t.rows[id])
    ensures t.rows[id].relevantAt == s.rows[id].relevantAt && t.rows[id].fields == s.rows[id].fields
    ensures !NeedsInspection(s.rows[id])
  {
  }

  lemma InspectionStays(s: State, step: Step, id: nat, run: nat, source: Row)
    requires Legal(s, step) && InspectedBy(s, id, run, source)
    requires id in Apply(s, step).rows
    requires Apply(s, step).rows[id].relevantAt == s.rows[id].relevantAt && Apply(s, step).rows[id].fields == s.rows[id].fields
    ensures InspectedBy(Apply(s, step), id, run, source)
  {
    hide Updated, MarkAll, Judge.CompletedIds, Judge.SelectedPairs;
    StepKeepsRuns(s, step, run);
  }

  /** A fresh inspection mark names the run that just finished. */
  lemma MarkedNow(s: State, step: Step, id: nat)
    requires ClockOk(s) && SourcesOk(s) && VerdictsOk(s) && Legal(s, step) && id in s.rows && id in Apply(s, step).rows
    requires Apply(s, step).rows[id].inspectedAt != s.rows[id].inspectedAt
    ensures step.Finish?
    ensures exists source :: InspectedBy(Apply(s, step), id, step.run, source)
  {
    hide Updated, MarkAll, Judge.CompletedIds, Judge.SelectedPairs, FullyJudged, RowMoves;
    StepMovesRow(s, step, id);
    var job := s.runs[step.run];
    MarkAllEffect(s.rows, job.sources.value, job.verdict.value.completed, job.startedAt, id);
    var source :| source in job.sources.value && Marks(source, id, s.rows[id].relevantAt, job.verdict.value.completed);
    assert VerdictOk(job) && FullyJudged(job, source) && Agrees(s, source);
    FullyJudgedStays(job, source);
    assert InspectedBy(Apply(s, step), id, step.run, source);
  }

  lemma FullyJudgedStays(job: JobRun, source: Row)
    requires FullyJudged(job, source)
    ensures FullyJudged(job.(finished := true), source)
  {
  }

  ghost predicate Inv(s: State) {
    ClockOk(s) && SourcesOk(s) && VerdictsOk(s) && forall id: nat :: Accounted(s, id)
  }

  lemma {:induction false} Reachable(states: seq<State>, steps: seq<Step>, k: nat)
    requires Run(states, steps) && k < |states|
    ensures Inv(states[k])
  {
    hide Apply, Legal, ClockOk, SourcesOk, VerdictsOk, Accounted;
    if k == 0 {
      StartOk(states[0]);
    } else {
      Reachable(states, steps, k - 1);
      StepKeepsClock(states[k - 1], steps[k - 1]);
      StepKeepsSources(states[k - 1], steps[k - 1]);
      StepKeepsVerdicts(states[k - 1], steps[k - 1]);
      forall id: nat
        ensures Accounted(states[k], id)
      {
        StepKeepsAccounted(states[k - 1], steps[k - 1], id);
      }
    }
  }

  lemma StartOk(s: State)
    requires s.rows == map[] && s.runs == map[]
    ensures Inv(s)
  {
  }

  /**
   * No lost inspection work: a memory that discovery leaves out was read, with exactly its current content,
   * by a run that selected and judged every one of that memory's pairs.
   */
  lemma NoLostInspection(states: seq<State>, steps: seq<Step>, k: nat, id: nat, cutoff: int)
    requires Run(states, steps) && k < |states|
    requires id in states[k].rows && states[k].rows[id].status == ActiveMemory && !Discovered(states[k].rows[id], cutoff)
    ensures exists run, source :: InspectedBy(states[k], id, run, source)
  {
    hide ClockOk, SourcesOk, VerdictsOk, InspectedBy;
    Reachable(states, steps, k);
    assert Accounted(states[k], id);
  }

  lemma {:induction false} MarkAllMarks(rows: map<nat, Row>, sources: seq<Row>, completed: seq<nat>, startedAt: int, source: Row)
    requires source in sources && source.id in rows && Marks(source, source.id, rows[source.id].relevantAt, completed)
    ensures source.id in MarkAll(rows, sources, completed, startedAt)
    ensures MarkAll(rows, sources, completed, startedAt)[source.id].inspectedAt == Some(startedAt)
  {
    var n := |sources| - 1;
    MarkAllEffect(rows, sources[..n], completed, startedAt, source.id);
    if source in sources[..n] {
      MarkAllMarks(rows, sources[..n], completed, startedAt, source);
    }
  }

  /**
   * Nor is work repeated: a completed source that has not become relevant anew leaves the semantic clause when
   * its run finishes under the provider it started with, unless its content is younger than the run.
   */
  lemma FinishedLeavesDiscovery(s: State, run: nat, source: Row)
    requires Legal(s, Finish(run)) && s.selected == s.runs[run].system && s.runs[run].sources.Some?
    requires source in s.runs[run].sources.value && source.id in s.rows
    requires Marks(source, source.id, s.rows[source.id].relevantAt, s.runs[run].verdict.value.completed)
    ensures source.id in Apply(s, Finish(run)).rows
    ensures NeedsInspection(Apply(s, Finish(run)).rows[source.id]) <==> s.runs[run].startedAt < source.relevantAt
  {
    var job := s.runs[run];
    MarkAllMarks(s.rows, job.sources.value, job.verdict.value.completed, job.startedAt, source);
    MarkAllEffect(s.rows, job.sources.value, job.verdict.value.completed, job.startedAt, source.id);
  }

  // ---------------------------------------------------------------- the consolidation mark

  /** Step j marked the memory for a run that started at `startedAt`. */
  predicate MarkedAt(states: seq<State>, steps: seq<Step>, j: nat, id: nat, startedAt: int)
    requires |states| == |steps| + 1
  {
    && j < |steps| && steps[j].Mark? && id in steps[j].ids
    && steps[j].run in states[j].runs && states[j].runs[steps[j].run].startedAt == startedAt
  }

  /** A step other than a mark of the memory leaves its consolidation mark alone; new rows have none. */
  lemma StepKeepsMark(s: State, step: Step, id: nat)
    requires ClockOk(s) && Legal(s, step) && id in Apply(s, step).rows && !(step.Mark? && id in step.ids)
    ensures id in s.rows ==> Apply(s, step).rows[id].consolidatedAt == s.rows[id].consolidatedAt
    ensures id !in s.rows ==> Apply(s, step).rows[id].consolidatedAt.None?
  {
    hide MarkAll, SetFields, Judge.CompletedIds, Judge.SelectedPairs, Relevant;
    match step
    case Finish(run) =>
      if s.selected == s.runs[run].system && s.runs[run].sources.Some? {
        var job := s.runs[run];
        KeysOnly(s.rows, job.sources.value, job.verdict.value.completed, job.startedAt);
        MarkAllEffect(s.rows, job.sources.value, job.verdict.value.completed, job.startedAt, id);
      }
    case _ =>
  }

  /** Every consolidation mark goes back to a mark step that named the memory, and carries the start of its run. */
  lemma {:induction false} MarkOrigin(states: seq<State>, steps: seq<Step>, k: nat, id: nat) returns (j: nat)
    requires Run(states, steps) && k < |states| && id in states[k].rows && states[k].rows[id].consolidatedAt.Some?
    ensures j < k && MarkedAt(states, steps, j, id, states[k].rows[id].consolidatedAt.value)
  {
    hide Legal, MarkAll, SetFields, Judge.CompletedIds, Judge.SelectedPairs, Relevant, ClockOk, SourcesOk, VerdictsOk, Accounted;
    if k > 0 {
      Reachable(states, steps, k - 1);
      var step := steps[k - 1];
      assert Legal(states[k - 1], step) && states[k] == Apply(states[k - 1], step);
      if step.Mark? && id in step.ids {
        MarkIs(states[k - 1], step, id);
        j := k - 1;
      } else {
        StepKeepsMark(states[k - 1], step, id);
        j := MarkOrigin(states, steps, k - 1, id);
      }
    }
  }

  /** What one mark does to a row. */
  lemma MarkIs(s: State, step: Step, id: nat)
    requires step.Mark? && Legal(s, step)
    ensures step.run in s.runs && Apply(s, step).rows.Keys == s.rows.Keys
    ensures id in s.rows ==>
              Apply(s, step).rows[id] == if id in step.ids then s.rows[id].(consolidatedAt := Some(s.runs[step.run].startedAt)) else s.rows[id]
  {
  }

  /** Relevance stamps only move forward, past every stored reading, and content moves only with them. */
  lemma {:induction false} ContentSince(states: seq<State>, steps: seq<Step>, i: nat, k: nat, id: nat)
    requires Run(states, steps) && i <= k < |states| && id in states[i].rows
    ensures id in states[k].rows && states[i].now <= states[k].now
    ensures states[k].rows[id].relevantAt == states[i].rows[id].relevantAt || states[k].rows[id].relevantAt > states[i].now
    ensures states[k].rows[id].relevantAt == states[i].rows[id].relevantAt ==> states[k].rows[id].fields == states[i].rows[id].fields
    decreases k
  {
    hide Apply, Legal, ClockOk, SourcesOk, VerdictsOk, Accounted;
    if i < k {
      ContentSince(states, steps, i, k - 1, id);
      Reachable(states, steps, k - 1);
      Reachable(states, steps, i);
      StampsInThePast(states[i], id);
      StampsInThePast(states[k - 1], id);
      StepMovesRow(states[k - 1], steps[k - 1], id);
    }
  }

  lemma StampsInThePast(s: State, id: nat)
    requires ClockOk(s) && id in s.rows
    ensures s.rows[id].relevantAt <= s.now
  {
  }

  /**
   * The counterpart for the mark of a run: a recent memory that the first clause of discovery leaves out was named
   * in a mark of a run that started no earlier than the memory's relevance stamp, and had its present content by then.
   */
  lemma NoLostConsolidation(states: seq<State>, steps: seq<Step>, k: nat, id: nat, cutoff: int) returns (j: nat)
    requires Run(states, steps) && k < |states| && id in states[k].rows
    requires states[k].rows[id].relevantAt >= cutoff && !NeedsConsolidation(states[k].rows[id], cutoff)
    ensures j < k && MarkedAt(states, steps, j, id, states[k].rows[id].consolidatedAt.value)
    ensures states[k].rows[id].relevantAt <= states[k].rows[id].consolidatedAt.value
    ensures id in states[j].rows ==> states[j].rows[id].fields == states[k].rows[id].fields
  {
    hide Legal, Apply, ClockOk, SourcesOk, VerdictsOk, Accounted;
    j := MarkOrigin(states, steps, k, id);
    Reachable(states, steps, j);
    StartedInThePast(states[j], steps[j].run);
    if id in states[j].rows {
      ContentSince(states, steps, j, k, id);
    }
  }

  lemma StartedInThePast(s: State, run: nat)
    requires ClockOk(s) && run in s.runs
    ensures s.runs[run].startedAt <= s.now
  {
  }

  /** An expired memory that the expiry query leaves out was named in a mark of a run that started after it had expired. */
  lemma NoLostExpiry(states: seq<State>, steps: seq<Step>, k: nat, id: nat, now: int) returns (j: nat)
    requires Run(states, steps) && k < |states| && id in states[k].rows && !DiscoveredExpired(states[k].rows[id], now)
    requires states[k].rows[id].status == ActiveMemory
    requires states[k].rows[id].fields.expiresAt.Some? && states[k].rows[id].fields.expiresAt.value <= now
    ensures j < k && MarkedAt(states, steps, j, id, states[k].rows[id].consolidatedAt.value)
    ensures states[k].rows[id].fields.expiresAt.value <= states[k].rows[id].consolidatedAt.value
  {
    j := MarkOrigin(states, steps, k, id);
  }

  /**
   * A mark takes exactly the memories it names out of the first clause, unless their relevance stamp is younger than
   * the run, and changes no other row and nothing else of theirs.
   */
  lemma MarkedLeavesDiscovery(states: seq<State>, steps: seq<Step>, k: nat, id: nat, cutoff: int)
    requires Run(states, steps) && k < |steps| && steps[k].Mark? && id in states[k].rows
    ensures steps[k].run in states[k].runs && id in states[k + 1].rows
    ensures id !in steps[k].ids ==> states[k + 1].rows[id] == states[k].rows[id]
    ensures states[k + 1].rows[id].(consolidatedAt := None) == states[k].rows[id].(consolidatedAt := None)
    ensures id in steps[k].ids ==>
              (NeedsConsolidation(states[k + 1].rows[id], cutoff) <==>
               states[k].rows[id].relevantAt >= cutoff && states[k].runs[steps[k].run].startedAt < states[k].rows[id].relevantAt)
  {
    hide Legal, Apply;
    assert Legal(states[k], steps[k]) && states[k + 1] == Apply(states[k], steps[k]);
    MarkIs(states[k], steps[k], id);
  }

  // ---------------------------------------------------------------- updates

  /** A requested value arrived; what was not asked for stayed. */
  predicate Took<T(==)>(requested: Option<T>, before: T, after: T) {
    match requested
    case Some(value) => after == value
    case None => after == before
  }

  ghost predicate TookCategories(requested: Option<seq<nat>>, before: set<nat>, after: set<nat>) {
    match requested
    case Some(keys) => forall key :: key in after <==> key in keys
    case None => after == before
  }

  ghost predicate FieldsTook(r: Request, before: Fields, after: Fields) {
    && Took(r.kind, before.kind, after.kind) && Took(r.title, before.title, after.title) && Took(r.body, before.body, after.body)
    && Took(r.sensitivity, before.sensitivity, after.sensitivity) && Took(r.confidence, before.confidence, after.confidence)
    && Took(r.expiresAt, before.expiresAt, after.expiresAt) && Took(r.sourceType, before.sourceType, after.sourceType)
    && Took(r.sourceUri, before.sourceUri, after.sourceUri) && Took(r.sourceMetadata, before.sourceMetadata, after.sourceMetadata)
    && Took(r.reviewState, before.reviewState, after.reviewState)
    && TookCategories(r.categoryKeys, before.categoryKeys, after.categoryKeys)
  }

  predicate NamesMemory(step: Step, id: nat) {
    (step.Update? || step.Retire?) && step.id == id
  }

  /**
   * An update puts every requested value into its field and leaves the rest, and so it stays, whatever runs do, until
   * the memory is updated or retired again.
   */
  lemma {:induction false} UpdateArrives(states: seq<State>, steps: seq<Step>, i: nat, k: nat)
    requires Run(states, steps) && i < k < |states| && steps[i].Update?
    requires forall j :: i < j < k ==> !NamesMemory(steps[j], steps[i].id)
    ensures var id := steps[i].id;
            && id in states[i].rows && id in states[k].rows
            && FieldsTook(steps[i].request, states[i].rows[id].fields, states[k].rows[id].fields)
            && Took(steps[i].request.status, states[i].rows[id].status, states[k].rows[id].status)
            && states[k].rows[id].version > states[i].now
    decreases k
  {
    hide Legal, Apply, FieldsTook, ClockOk, SourcesOk, VerdictsOk, Accounted;
    Reachable(states, steps, k - 1);
    assert Legal(states[k - 1], steps[k - 1]) && states[k] == Apply(states[k - 1], steps[k - 1]);
    if k == i + 1 {
      UpdatedNow(states[i], steps[i]);
    } else {
      UpdateArrives(states, steps, i, k - 1);
      UnnamedStays(states[k - 1], steps[k - 1], steps[i].id);
    }
  }

  lemma UpdatedNow(s: State, step: Step)
    requires step.Update? && Legal(s, step)
    ensures step.id in s.rows && step.id in Apply(s, step).rows
    ensures FieldsTook(step.request, s.rows[step.id].fields, Apply(s, step).rows[step.id].fields)
    ensures Took(step.request.status, s.rows[step.id].status, Apply(s, step).rows[step.id].status)
    ensures Apply(s, step).rows[step.id].version > s.now
  {
    hide Relevant;
  }

  lemma UnnamedStays(s: State, step: Step, id: nat)
    requires ClockOk(s) && Legal(s, step) && id in s.rows && !NamesMemory(step, id)
    ensures id in Apply(s, step).rows
    ensures var after := Apply(s, step).rows[id];
            after.fields == s.rows[id].fields && after.status == s.rows[id].status && after.version == s.rows[id].version &&
            after.relevantAt == s.rows[id].relevantAt
  {
    hide MarkAll, SetFields, Judge.CompletedIds, Judge.SelectedPairs, Relevant;
    match step
    case Finish(run) =>
      if s.selected == s.runs[run].system && s.runs[run].sources.Some? {
        MarkAllEffect(s.rows, s.runs[run].sources.value, s.runs[run].verdict.value.completed, s.runs[run].startedAt, id);
      }
    case _ =>
  }
}
