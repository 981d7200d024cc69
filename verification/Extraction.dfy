/**
 * One extraction run: claiming under leases and fencing tokens, committing or failing, retry,
 * reprocess, and the later reconciliation of pending candidates. apps/api/src/memory-processing/
 * {extraction-run.service,extraction-outcome-writer,extraction-reconciliation.service,
 * candidate-applier,extraction-provider.service}.ts.
 *
 * A State holds the run row, its receipt rows and a history; each conditional update or transaction
 * is one function from State to State.
 */
module Extraction {
  import opened Common
  import opened Processing

  const LEASE_SLACK_MS: int := 5_000

  datatype RunStatus = PendingRun | Running | Completed | Partial | Failed | Skipped

  datatype Intent = Assertion | Remember | Confirmation | Correction | Retraction

  datatype Disposition = EligibleCandidate | NeedsClarification | Rejected

  datatype Candidate = Candidate(id: nat, content: nat, intent: Intent, disposition: Disposition)

  /** What intake answers for an applied candidate; Malformed and unavailable intake raise instead. */
  datatype Response = Deduplicated | MemoryApplied | SuggestionQueued | DeniedByPolicy | Raises

  datatype OutcomeStatus =
    | RejectedOutcome
    | PendingReconciliation
    | AwaitingClarification
    | Applied(response: Response)
    | Reconciled(recordIds: set<nat>)

  datatype Outcome = Outcome(candidateId: nat, status: OutcomeStatus)

  datatype ToolKind = MemorySearch | SuggestionSearch | Mutation

  /** Candidate receipts and tool receipts share a table; candidate ids avoid the tool prefix. */
  datatype ReceiptKey = CandidateKey(id: nat) | ToolKey(serial: nat)

  datatype Receipt = CandidateReceipt(outcome: Outcome) | ToolReceipt(kind: ToolKind, recordIds: set<nat>)

  datatype Run = Run(
    status: RunStatus,
    claimToken: Option<nat>,
    leaseUntil: Option<int>,
    attempts: nat,
    fingerprint: nat,
    pending: seq<Candidate>,
    outcomes: seq<Outcome>
  )

  /** `commits` and `created` are history: committed candidate lists, and candidates that created a record. */
  datatype State = State(
    run: Run,
    receipts: map<ReceiptKey, Receipt>,
    env: Env,
    selected: System,
    usedTokens: set<nat>,
    commits: seq<seq<Candidate>>,
    created: seq<Candidate>,
    now: int
  )

  predicate Final(status: RunStatus) {
    status == Completed || status == Partial
  }

  // ---------------------------------------------------------------- extraction-provider.service.ts

  /** A candidate id already seen in this answer is rejected, whatever else it says. */
  function Screen(raw: seq<Candidate>, seen: set<nat>): (cs: seq<Candidate>)
    ensures |cs| == |raw|
    ensures forall i :: 0 <= i < |cs| ==> cs[i] == raw[i] || cs[i] == raw[i].(disposition := Rejected)
  {
    if raw == [] then []
    else
      [if raw[0].id in seen then raw[0].(disposition := Rejected) else raw[0]]
      + Screen(raw[1..], seen + {raw[0].id})
  }

  method RejectRepeated(raw: seq<Candidate>) returns (cs: seq<Candidate>)
    ensures cs == Screen(raw, {})
  {
    cs := [];
    var ids: set<nat> := {};
    for i := 0 to |raw|
      invariant Screen(raw, {}) == cs + Screen(raw[i..], ids)
    {
      ScreenNext(cs, raw, i, ids);
      if raw[i].id in ids {
        cs := cs + [raw[i].(disposition := Rejected)];
      } else {
        cs := cs + [raw[i]];
      }
      ids := ids + {raw[i].id};
    }
  }

  lemma ScreenNext(cs: seq<Candidate>, raw: seq<Candidate>, i: nat, ids: set<nat>)
    requires i < |raw|
    ensures cs + Screen(raw[i..], ids)
         == (cs + [if raw[i].id in ids then raw[i].(disposition := Rejected) else raw[i]])
            + Screen(raw[i + 1..], ids + {raw[i].id})
  {
  }

  // ---------------------------------------------------------------- extraction-run.service.ts

  predicate Claimable(run: Run, now: int) {
    run.status in {PendingRun, Failed, Running} && (run.leaseUntil.None? || run.leaseUntil.value < now)
  }

  function ClaimStep(s: State, token: nat, deadline: int): State {
    if Claimable(s.run, s.now) then
      s.(run := s.run.(status := Running, claimToken := Some(token), leaseUntil := Some(deadline + LEASE_SLACK_MS),
                       attempts := s.run.attempts + 1),
         usedTokens := s.usedTokens + {token})
    else s.(usedTokens := s.usedTokens + {token})
  }

  function RetryStep(s: State): State {
    if s.run.status == Skipped then s.(run := s.run.(status := Failed)) else s
  }

  function ReprocessStep(s: State, fingerprint: nat): State {
    if s.run.status in {Failed, Skipped} && s.run.leaseUntil.None? then
      s.(run := s.run.(status := PendingRun, fingerprint := fingerprint, outcomes := []))
    else s
  }

  // ---------------------------------------------------------------- candidate-applier.ts

  datatype Batch = Batch(
    receipts: map<ReceiptKey, Receipt>,
    created: seq<Candidate>,
    outcomes: seq<Outcome>,
    pending: seq<Candidate>
  )

  predicate CreatesRecord(response: Response) {
    response == MemoryApplied || response == SuggestionQueued
  }

  function ResponseFor(responses: map<nat, Response>, id: nat): Response {
    if id in responses then responses[id] else DeniedByPolicy
  }

  /** A receipt answers a repeated application; None is an exception. */
  function ApplyCandidate(b: Batch, c: Candidate, response: Response): Option<(Batch, Outcome)> {
    var key := CandidateKey(c.id);
    if key in b.receipts && b.receipts[key].CandidateReceipt? then Some((b, b.receipts[key].outcome))
    else if response == Raises then None
    else
      var outcome := Outcome(c.id, Applied(response));
      Some((b.(receipts := b.receipts[key := CandidateReceipt(outcome)],
               created := if CreatesRecord(response) then b.created + [c] else b.created), outcome))
  }

  // ---------------------------------------------------------------- extraction-outcome-writer.ts

  predicate Waits(c: Candidate) {
    c.disposition != EligibleCandidate || c.intent == Correction || c.intent == Retraction
  }

  function WaitingOutcome(c: Candidate): Outcome {
    Outcome(c.id,
      if c.disposition == Rejected then RejectedOutcome
      else if c.intent == Correction || c.intent == Retraction then PendingReconciliation
      else AwaitingClarification)
  }

  function ApplyOne(b: Batch, c: Candidate, response: Response): Option<Batch> {
    if Waits(c) then
      Some(b.(pending := if c.disposition == Rejected then b.pending else b.pending + [c],
              outcomes := b.outcomes + [WaitingOutcome(c)]))
    else
      var applied := ApplyCandidate(b, c, response);
      if applied.None? then None
      else Some(applied.value.0.(outcomes := b.outcomes + [applied.value.1]))
  }

  function ApplyAll(b: Batch, cs: seq<Candidate>, responses: map<nat, Response>): Option<Batch>
    decreases |cs|
  {
    if cs == [] then Some(b)
    else
      var next := ApplyOne(b, cs[0], ResponseFor(responses, cs[0].id));
      if next.None? then None else ApplyAll(next.value, cs[1..], responses)
  }

  predicate Permitted(s: State, processors: seq<Processor>) {
    Check(s.env, Scope.Extraction, s.selected, processors, false).Allowed?
  }

  /** The batch a commit would write, or None when the transaction throws. */
  function CommitBatch(
    s: State, token: nat, processors: seq<Processor>, aborted: bool, raw: seq<Candidate>, responses: map<nat, Response>
  ): Option<Batch>
  {
    if s.run.claimToken != Some(token) || aborted || !Permitted(s, processors) then None
    else ApplyAll(Batch(s.receipts, s.created, [], []), Screen(raw, {}), responses)
  }

  function FinalStatus(cs: seq<Candidate>, partial: bool): RunStatus {
    if partial || exists c :: c in cs && c.disposition == Rejected then Partial else Completed
  }

  function CommitStep(
    s: State, token: nat, processors: seq<Processor>, aborted: bool,
    raw: seq<Candidate>, partial: bool, responses: map<nat, Response>
  ): State
  {
    var b := CommitBatch(s, token, processors, aborted, raw, responses);
    if b.None? then s
    else
      s.(run := s.run.(status := FinalStatus(Screen(raw, {}), partial), claimToken := None, leaseUntil := None,
                       pending := b.value.pending, outcomes := b.value.outcomes),
         receipts := b.value.receipts,
         created := b.value.created,
         commits := s.commits + [Screen(raw, {})])
  }

  function FailStep(s: State, token: nat, blocked: bool): State {
    if s.run.claimToken != Some(token) then s
    else
      s.(run := s.run.(status := if blocked then Skipped else Failed, claimToken := None, leaseUntil := None, outcomes := []))
  }

  // ---------------------------------------------------------------- extraction-reconciliation.service.ts

  datatype Resolution = Handled | CreateNew | Defer

  datatype Reply = NotFound | Conflict | Blocked | Raised | Answered(outcome: Outcome)

  function RecordToolStep(s: State, serial: nat, kind: ToolKind, recordIds: set<nat>): State {
    s.(receipts := s.receipts[ToolKey(serial) := ToolReceipt(kind, recordIds)])
  }

  predicate Searched(receipts: map<ReceiptKey, Receipt>, kind: ToolKind) {
    exists key :: key in receipts && receipts[key].ToolReceipt? && receipts[key].kind == kind
  }

  /** Record ids named by the tool receipts of some kinds. */
  function Evidence(receipts: map<ReceiptKey, Receipt>, kinds: set<ToolKind>): set<nat> {
    set key, id | key in receipts && receipts[key].ToolReceipt? && receipts[key].kind in kinds &&
                  id in receipts[key].recordIds :: id
  }

  function FindPending(pending: seq<Candidate>, id: nat): Option<Candidate> {
    if pending == [] then None
    else if pending[0].id == id then Some(pending[0])
    else FindPending(pending[1..], id)
  }

  /** `related` are the live records that match the candidate's terms. */
  function CompleteStep(
    s: State, id: nat, resolution: Resolution, processors: seq<Processor>, related: set<nat>, response: Response
  ): (State, Reply)
  {
    var key := CandidateKey(id);
    var candidate := FindPending(s.run.pending, id);
    var matched := Evidence(s.receipts, {MemorySearch, SuggestionSearch}) + related;
    var mutated := Evidence(s.receipts, {Mutation});
    if key in s.receipts && s.receipts[key].CandidateReceipt? then (s, Answered(s.receipts[key].outcome))
    else if candidate.None? then (s, NotFound)
    else if resolution == Defer || candidate.value.disposition != EligibleCandidate then
      (s, Answered(Outcome(id, AwaitingClarification)))
    else if !Permitted(s, processors) then (s, Blocked)
    else if !Searched(s.receipts, MemorySearch) || !Searched(s.receipts, SuggestionSearch) then (s, Conflict)
    else if resolution == CreateNew && (matched != {} || candidate.value.intent == Retraction) then
      (s, Answered(Outcome(id, PendingReconciliation)))
    else if resolution == Handled && (mutated == {} || !(matched <= mutated)) then (s, Conflict)
    else if resolution == CreateNew && response == Raises then (s, Raised)
    else
      var outcome := Outcome(id, if resolution == CreateNew then Applied(response) else Reconciled(mutated));
      (s.(run := s.run.(pending := Filter(s.run.pending, (c: Candidate) => c.id != id),
                        outcomes := Filter(s.run.outcomes, (o: Outcome) => o.candidateId != id) + [outcome]),
          receipts := s.receipts[key := CandidateReceipt(outcome)],
          created := if resolution == CreateNew && CreatesRecord(response) then s.created + [candidate.value] else s.created),
       Answered(outcome))
  }

  // ---------------------------------------------------------------- steps

  datatype Step =
    | Claim(token: nat, timeoutMs: nat)
    | Commit(token: nat, processors: seq<Processor>, aborted: bool, raw: seq<Candidate>, partial: bool,
             responses: map<nat, Response>)
    | Fail(token: nat, blocked: bool)
    | Retry
    | Reprocess(fingerprint: nat)
    | RecordTool(serial: nat, kind: ToolKind, recordIds: set<nat>)
    | Complete(id: nat, resolution: Resolution, processors: seq<Processor>, related: set<nat>, response: Response)
    | SelectProvider(system: System)
    | Tick(ms: nat)

  /** Claim tokens and tool receipt keys are freshly drawn UUIDs. */
  predicate Legal(s: State, step: Step) {
    match step
    case Claim(token, _) => token !in s.usedTokens
    case RecordTool(serial, _, _) => ToolKey(serial) !in s.receipts
    case _ => true
  }

  function Apply(s: State, step: Step): State {
    match step
    case Claim(token, timeoutMs) => ClaimStep(s, token, s.now + timeoutMs)
    case Commit(token, processors, aborted, raw, partial, responses) =>
      CommitStep(s, token, processors, aborted, raw, partial, responses)
    case Fail(token, blocked) => FailStep(s, token, blocked)
    case Retry => RetryStep(s)
    case Reprocess(fingerprint) => ReprocessStep(s, fingerprint)
    case RecordTool(serial, kind, recordIds) => RecordToolStep(s, serial, kind, recordIds)
    case Complete(id, resolution, processors, related, response) =>
      CompleteStep(s, id, resolution, processors, related, response).0
    case SelectProvider(system) => s.(selected := system)
    case Tick(ms) => s.(now := s.now + ms)
  }

  predicate Initial(s: State) {
    s.run.status == PendingRun && s.run.claimToken.None? && s.run.leaseUntil.None? && s.run.pending == [] &&
    s.run.outcomes == [] && s.receipts == map[] && s.usedTokens == {} && s.commits == [] && s.created == []
  }

  ghost predicate RunOf(states: seq<State>, steps: seq<Step>) {
    && |states| == |steps| + 1
    && Initial(states[0])
    && forall i :: 0 <= i < |steps| ==> Legal(states[i], steps[i]) && states[i + 1] == Apply(states[i], steps[i])
  }
}
