/**
 * Which memories a consolidation run still has to look at: memories/memory-update.ts,
 * consolidation/consolidation.repository.ts and the bookkeeping at the end of
 * consolidation-orchestrator.service.ts in apps/api/src.
 */
module Inspection {
  import opened Common
  import opened Processing
  import opened Consolidation
  import Judge

  // ---------------------------------------------------------------- updates

  datatype ReviewState = PendingReview | ApprovedReview | RejectedReview

  /** The content fields, the source fields and the review state of a memory. */
  datatype Fields = Fields(
    kind: nat,
    title: nat,
    body: nat,
    sensitivity: nat,
    confidence: nat,
    categoryKeys: set<nat>,
    expiresAt: Option<int>,
    sourceType: nat,
    sourceUri: Option<nat>,
    sourceMetadata: nat,
    reviewState: ReviewState
  )

  /** An update request; None is an absent field. */
  datatype Request = Request(
    kind: Option<nat>,
    title: Option<nat>,
    body: Option<nat>,
    sensitivity: Option<nat>,
    confidence: Option<nat>,
    status: Option<MemoryStatus>,
    reviewState: Option<ReviewState>,
    sourceType: Option<nat>,
    sourceUri: Option<Option<nat>>,
    sourceMetadata: Option<nat>,
    expiresAt: Option<Option<int>>,
    categoryKeys: Option<seq<nat>>
  )

  datatype Row = Row(
    id: nat,
    fields: Fields,
    status: MemoryStatus,
    relevantAt: int,
    consolidatedAt: Option<int>,
    inspectedAt: Option<int>,
    version: int
  )

  function Or<T>(x: Option<T>, otherwise: T): T {
    if x.Some? then x.value else otherwise
  }

  function SetFields(f: Fields, r: Request): Fields {
    Fields(Or(r.kind, f.kind), Or(r.title, f.title), Or(r.body, f.body), Or(r.sensitivity, f.sensitivity),
           Or(r.confidence, f.confidence),
           if r.categoryKeys.Some? then set key | key in r.categoryKeys.value else f.categoryKeys,
           Or(r.expiresAt, f.expiresAt), Or(r.sourceType, f.sourceType), Or(r.sourceUri, f.sourceUri),
           Or(r.sourceMetadata, f.sourceMetadata), Or(r.reviewState, f.reviewState))
  }

  /** `isConsolidationRelevantUpdate`. */
  predicate Relevant(r: Request) {
    || r.status == Some(ActiveMemory)
    || r.kind.Some? || r.title.Some? || r.body.Some? || r.categoryKeys.Some? || r.sensitivity.Some?
    || r.confidence.Some? || r.expiresAt.Some?
    || r.sourceType.Some? || r.sourceUri.Some? || r.sourceMetadata.Some?
    || r.reviewState.Some?
  }

  function Updated(row: Row, r: Request, now: int): Row {
    row.(fields := SetFields(row.fields, r), status := Or(r.status, row.status),
         relevantAt := if Relevant(r) then now else row.relevantAt, version := now)
  }

  /** `toUpdateData` and the write of what it returns, one requested field at a time. */
  method UpdateMemory(row: Row, request: Request, now: int) returns (updated: Row)
    ensures updated == Updated(row, request, now)
  {
    hide Relevant;
    var data := UpdateContent(row.fields, request);
    var status, relevantAt := row.status, row.relevantAt;
    if request.status.Some? {
      status := request.status.value;
    }
    data := UpdateSource(data, request);
    if Relevant(request) {
      relevantAt := now;
    }
    updated := row.(fields := data, status := status, relevantAt := relevantAt, version := now);
  }

  method UpdateContent(fields: Fields, request: Request) returns (data: Fields)
    ensures data == fields.(kind := Or(request.kind, fields.kind), title := Or(request.title, fields.title),
                            body := Or(request.body, fields.body), sensitivity := Or(request.sensitivity, fields.sensitivity),
                            confidence := Or(request.confidence, fields.confidence))
  {
    data := fields;
    if request.kind.Some? { data := data.(kind := request.kind.value); }
    if request.title.Some? { data := data.(title := request.title.value); }
    if request.body.Some? { data := data.(body := request.body.value); }
    if request.sensitivity.Some? { data := data.(sensitivity := request.sensitivity.value); }
    if request.confidence.Some? { data := data.(confidence := request.confidence.value); }
  }

  method UpdateSource(fields: Fields, request: Request) returns (data: Fields)
    ensures data == fields.(reviewState := Or(request.reviewState, fields.reviewState),
                            sourceType := Or(request.sourceType, fields.sourceType), sourceUri := Or(request.sourceUri, fields.sourceUri),
                            sourceMetadata := Or(request.sourceMetadata, fields.sourceMetadata),
                            expiresAt := Or(request.expiresAt, fields.expiresAt),
                            categoryKeys := if request.categoryKeys.Some? then set key | key in request.categoryKeys.value
                                            else fields.categoryKeys)
  {
    data := fields;
    if request.reviewState.Some? { data := data.(reviewState := request.reviewState.value); }
    if request.sourceType.Some? { data := data.(sourceType := request.sourceType.value); }
    if request.sourceUri.Some? { data := data.(sourceUri := request.sourceUri.value); }
    if request.sourceMetadata.Some? { data := data.(sourceMetadata := request.sourceMetadata.value); }
    if request.expiresAt.Some? { data := data.(expiresAt := request.expiresAt.value); }
    if request.categoryKeys.Some? { data := data.(categoryKeys := set key | key in request.categoryKeys.value); }
  }

  /** An update that keeps the relevance stamp keeps every field that matters, and reactivates nothing. */
  lemma StampTracksContent(row: Row, r: Request, now: int)
    requires row.relevantAt < now
    ensures Updated(row, r, now).relevantAt == row.relevantAt ==>
              Updated(row, r, now).fields == row.fields && (Updated(row, r, now).status == ActiveMemory ==> row.status == ActiveMemory)
    ensures Updated(row, r, now).relevantAt == row.relevantAt <==> !Relevant(r)
  {
  }

  // ---------------------------------------------------------------- discovery

  /** The semantic clause of the discovery query. */
  predicate NeedsInspection(row: Row) {
    row.inspectedAt.None? || row.inspectedAt.value < row.relevantAt
  }

  predicate NeedsConsolidation(row: Row, cutoff: int) {
    row.relevantAt >= cutoff && (row.consolidatedAt.None? || row.consolidatedAt.value < row.relevantAt)
  }

  /** `findRecentIds`. */
  predicate Discovered(row: Row, cutoff: int) {
    row.status == ActiveMemory && (NeedsConsolidation(row, cutoff) || NeedsInspection(row))
  }

  /** `findExpiredIds`. */
  predicate DiscoveredExpired(row: Row, now: int) {
    && row.status == ActiveMemory && row.fields.expiresAt.Some? && row.fields.expiresAt.value <= now
    && (row.consolidatedAt.None? || row.consolidatedAt.value < row.fields.expiresAt.value)
  }

  // ---------------------------------------------------------------- runs

  /** What judging a run's sources came to. */
  datatype Verdict = Verdict(pairs: seq<Judge.Pair>, judgedPairs: seq<Judge.Pair>, completed: seq<nat>)

  datatype JobRun = JobRun(startedAt: int, system: System, sources: Option<seq<Row>>, verdict: Option<Verdict>, finished: bool)

  datatype State = State(rows: map<nat, Row>, runs: map<nat, JobRun>, selected: System, now: int)

  /** How the judge sees a source, whose text its checks do not read; `secretLike` is the content detector's verdict. */
  function AsMemory(row: Row, secretLike: bool): Memory {
    Memory(row.id, row.version, row.fields.body, row.status, row.fields.reviewState == ApprovedReview, row.fields.expiresAt,
           row.fields.sensitivity, secretLike)
  }

  function AsMemories(rows: seq<Row>, secretLike: set<nat>): (r: seq<Memory>)
    ensures |r| == |rows| && forall i :: 0 <= i < |r| ==> r[i] == AsMemory(rows[i], rows[i].id in secretLike)
  {
    if rows == [] then [] else [AsMemory(rows[0], rows[0].id in secretLike)] + AsMemories(rows[1..], secretLike)
  }

  /** The marking loop: a completed source is marked unless it has become relevant anew. */
  function MarkAll(rows: map<nat, Row>, sources: seq<Row>, completed: seq<nat>, startedAt: int): map<nat, Row> {
    if sources == [] then rows
    else
      var n := |sources| - 1;
      MarkOne(MarkAll(rows, sources[..n], completed, startedAt), sources[n], completed, startedAt)
  }

  function MarkOne(rows: map<nat, Row>, source: Row, completed: seq<nat>, startedAt: int): map<nat, Row> {
    if source.id in completed && source.id in rows && rows[source.id].relevantAt == source.relevantAt then
      rows[source.id := rows[source.id].(inspectedAt := Some(startedAt))]
    else rows
  }

  function MarkConsolidated(rows: map<nat, Row>, ids: set<nat>, startedAt: int): map<nat, Row> {
    map id | id in rows :: if id in ids then rows[id].(consolidatedAt := Some(startedAt)) else rows[id]
  }

  datatype Step =
    | AddRow(id: nat, fields: Fields, status: MemoryStatus)
    | Update(id: nat, request: Request)
    | Retire(id: nat, status: MemoryStatus)
    | Start(run: nat)
    | Read(run: nat, sources: seq<Row>)
    | JudgeSources(run: nat, task: Judge.Task, pairs: seq<Judge.Pair>, atPairs: int, judged: nat, atEnd: int, secretLike: set<nat>)
    | JudgeFails(run: nat)
    | Mark(run: nat, ids: set<nat>)
    | Finish(run: nat)
    | SelectSystem(system: System)
    | Tick(ms: nat)

  /**
   * Row and run ids are fresh. A run reads its sources once, as they are at that moment; which ids it reads
   * may come from discovery or from an earlier attempt of the same job. Judging covers a prefix of the
   * selected pairs. Archiving and deleting never set a memory ACTIVE.
   */
  predicate Legal(s: State, step: Step) {
    match step
    case AddRow(id, _, _) => id !in s.rows
    case Update(id, _) => id in s.rows
    case Retire(id, status) => id in s.rows && status != ActiveMemory
    case Start(run) => run !in s.runs
    case Read(run, sources) =>
      run in s.runs && s.runs[run].sources.None? && forall row :: row in sources ==> row.id in s.rows && s.rows[row.id] == row
    case JudgeSources(run, task, pairs, atPairs, judged, _, _) =>
      run in s.runs && s.runs[run].sources.Some? && s.runs[run].verdict.None? &&
      judged <= |Judge.SelectedPairs(pairs, task, atPairs)|
    case JudgeFails(run) => run in s.runs && s.runs[run].sources.Some? && s.runs[run].verdict.None?
    case Mark(run, _) => run in s.runs
    case Finish(run) => run in s.runs && s.runs[run].verdict.Some? && !s.runs[run].finished
    case _ => true
  }

  /** Every clock reading that is stored is later than all earlier ones. */
  function Apply(s: State, step: Step): State
    requires Legal(s, step)
  {
    var later := s.now + 1;
    match step
    case AddRow(id, fields, status) =>
      s.(rows := s.rows[id := Row(id, fields, status, later, None, None, later)], now := later)
    case Update(id, request) => s.(rows := s.rows[id := Updated(s.rows[id], request, later)], now := later)
    case Retire(id, status) => s.(rows := s.rows[id := s.rows[id].(status := status, version := later)], now := later)
    case Start(run) => s.(runs := s.runs[run := JobRun(later, s.selected, None, None, false)], now := later)
    case Read(run, sources) => s.(runs := s.runs[run := s.runs[run].(sources := Some(sources))])
    case JudgeSources(run, task, pairs, atPairs, judged, atEnd, secretLike) =>
      var judgedPairs := Judge.SelectedPairs(pairs, task, atPairs)[..judged];
      var completed := Judge.CompletedIds(AsMemories(s.runs[run].sources.value, secretLike), task, atEnd, pairs, judgedPairs);
      s.(runs := s.runs[run := s.runs[run].(verdict := Some(Verdict(pairs, judgedPairs, completed)))])
    case JudgeFails(run) => s.(runs := s.runs[run := s.runs[run].(verdict := Some(Verdict([], [], [])))])
    case Mark(run, ids) => s.(rows := MarkConsolidated(s.rows, ids, s.runs[run].startedAt))
    case Finish(run) =>
      var job := s.runs[run];
      var after := s.(runs := s.runs[run := job.(finished := true)]);
      if s.selected != job.system || job.sources.None? then after
      else after.(rows := MarkAll(s.rows, job.sources.value, job.verdict.value.completed, job.startedAt))
    case SelectSystem(system) => s.(selected := system)
    case Tick(ms) => s.(now := s.now + ms)
  }

  /** Any interleaving of overlapping runs, owner edits and archive actions. */
  ghost predicate Run(states: seq<State>, steps: seq<Step>) {
    && |states| == |steps| + 1
    && states[0].rows == map[] && states[0].runs == map[]
    && forall i :: 0 <= i < |steps| ==> Legal(states[i], steps[i]) && states[i + 1] == Apply(states[i], steps[i])
  }

  class ConsolidationMarks {
    var rows: map<nat, Row>

    method MarkMemoriesConsolidated(ids: seq<nat>, consolidatedAt: int)
      modifies this
      ensures rows == MarkConsolidated(old(rows), (set id | id in ids), consolidatedAt)
    {
      if ids == [] {
        assert rows == MarkConsolidated(rows, {}, consolidatedAt);
        return;
      }
      rows := map id | id in rows :: if id in ids then rows[id].(consolidatedAt := Some(consolidatedAt)) else rows[id];
    }

    /** The loop of the last transaction of a run. */
    method MarkInspected(sources: seq<Row>, completed: seq<nat>, startedAt: int)
      modifies this
      ensures rows == MarkAll(old(rows), sources, completed, startedAt)
    {
      for i := 0 to |sources|
        invariant rows == MarkAll(old(rows), sources[..i], completed, startedAt)
      {
        var source := sources[i];
        assert sources[..i + 1][..i] == sources[..i];
        if source.id in completed && source.id in rows && rows[source.id].relevantAt == source.relevantAt {
          rows := rows[source.id := rows[source.id].(inspectedAt := Some(startedAt))];
        }
      }
      assert sources[..|sources|] == sources;
    }
  }
}
