/** What each call of the extraction services brings about, over every run. */
module ExtractionOutcomes {
  import opened Common
  import opened Processing
  import opened Extraction
  import opened ExtractionRuns

  // ---------------------------------------------------------------- claims

  lemma StepIs(states: seq<State>, steps: seq<Step>, i: nat)
    requires RunOf(states, steps) && i < |steps|
    ensures |states| == |steps| + 1 && Legal(states[i], steps[i]) && states[i + 1] == Apply(states[i], steps[i])
    ensures LeaseOk(states[i]) && CommitOk(states[i]) && ConservationOk(states[i])
  {
    Reachable(states, steps, i);
  }

  /** Step i claims the run. */
  predicate Claims(states: seq<State>, steps: seq<Step>, i: nat)
    requires |states| == |steps| + 1
  {
    i < |steps| && steps[i].Claim? && states[i + 1].run.claimToken == Some(steps[i].token)
  }

  /** A claim takes effect exactly when the run is new, has failed, or is held under a lease that has passed. */
  lemma ClaimIff(states: seq<State>, steps: seq<Step>, i: nat)
    requires RunOf(states, steps) && i < |steps| && steps[i].Claim?
    ensures Claims(states, steps, i) <==>
              states[i].run.status in {PendingRun, Failed} ||
              (states[i].run.status == Running && states[i].run.leaseUntil.Some? && states[i].run.leaseUntil.value < states[i].now)
    ensures Claims(states, steps, i) ==>
              states[i + 1].run.status == Running && states[i + 1].run.attempts == states[i].run.attempts + 1
    ensures !Claims(states, steps, i) ==> states[i + 1].run == states[i].run
  {
    StepIs(states, steps, i);
  }

  lemma ClaimLeases(states: seq<State>, steps: seq<Step>, i: nat)
    requires RunOf(states, steps) && Claims(states, steps, i)
    ensures states[i + 1].run.leaseUntil == Some(states[i].now + steps[i].timeoutMs + 5_000) && states[i + 1].now == states[i].now
  {
    StepIs(states, steps, i);
  }

  /**
   * A claim protects its worker for the time it asked for and five seconds more: until then, as long as the worker itself
   * writes nothing, its token stays on the row and no other claim takes effect.
   */
  lemma LeaseCoversDeadline(states: seq<State>, steps: seq<Step>, i: nat, k: nat)
    requires RunOf(states, steps) && Claims(states, steps, i) && i < k < |states|
    requires states[k].now <= states[i].now + steps[i].timeoutMs + 5_000
    requires forall t :: i < t < k ==> !WritesAs(steps[t], steps[i].token)
    ensures states[k].run.claimToken == Some(steps[i].token) && states[k].run.status == Running
    ensures k < |steps| && steps[k].Claim? ==> !Claims(states, steps, k) && states[k + 1].run == states[k].run
  {
    ClaimLeases(states, steps, i);
    LeaseIsExclusive(states, steps, steps[i].token, i + 1, k);
    if k < |steps| && steps[k].Claim? {
      ClaimIff(states, steps, k);
    }
  }

  /** While a worker holds the run and writes nothing, its lease is the one its claim took. */
  lemma {:induction false} HeldLease(states: seq<State>, steps: seq<Step>, i: nat, k: nat)
    requires RunOf(states, steps) && Claims(states, steps, i) && i < k < |states|
    requires states[k].run.claimToken == Some(steps[i].token)
    ensures states[k].run.leaseUntil == Some(states[i].now + steps[i].timeoutMs + 5_000)
    decreases k
  {
    hide ApplyAll, Screen, Permitted, Evidence, Searched, FindPending, ConservationOk;
    ClaimLeases(states, steps, i);
    if k > i + 1 {
      StepIs(states, steps, k - 1);
      TokenUsed(states, steps, i, k - 1);
      if states[k - 1].run.claimToken != Some(steps[i].token) {
        TokenStep(states[k - 1], steps[k - 1], steps[i].token);
      }
      HeldLease(states, steps, i, k - 1);
    }
  }

  lemma {:induction false} TokenUsed(states: seq<State>, steps: seq<Step>, i: nat, k: nat)
    requires RunOf(states, steps) && i < k < |states| && steps[i].Claim?
    ensures steps[i].token in states[k].usedTokens
    decreases k
  {
    hide ApplyAll, Screen, Permitted, Evidence, Searched, FindPending, ConservationOk;
    StepIs(states, steps, k - 1);
    if i + 1 < k {
      TokenUsed(states, steps, i, k - 1);
    }
  }

  /** Another worker takes a run over from one that writes nothing exactly once the deadline and five seconds have passed. */
  lemma TakeoverIff(states: seq<State>, steps: seq<Step>, i: nat, k: nat)
    requires RunOf(states, steps) && Claims(states, steps, i) && i < k < |steps| && steps[k].Claim?
    requires states[k].run.claimToken == Some(steps[i].token)
    ensures Claims(states, steps, k) <==> states[k].now > states[i].now + steps[i].timeoutMs + 5_000
  {
    HeldLease(states, steps, i, k);
    StepIs(states, steps, k);
    ClaimIff(states, steps, k);
  }

  function ClaimsUpTo(states: seq<State>, steps: seq<Step>, k: nat): nat
    requires |states| == |steps| + 1
  {
    if k == 0 then 0 else ClaimsUpTo(states, steps, k - 1) + (if Claims(states, steps, k - 1) then 1 else 0)
  }

  /** The attempts of a run are the claims that took effect. */
  lemma {:induction false} AttemptsCount(states: seq<State>, steps: seq<Step>, k: nat)
    requires RunOf(states, steps) && k < |states|
    ensures states[k].run.attempts == states[0].run.attempts + ClaimsUpTo(states, steps, k)
  {
    hide ApplyAll, Screen, Permitted, Evidence, Searched, FindPending, ConservationOk;
    if k > 0 {
      AttemptsCount(states, steps, k - 1);
      StepIs(states, steps, k - 1);
      if steps[k - 1].Claim? {
        ClaimIff(states, steps, k - 1);
      }
    }
  }

  /** A run skipped for lack of permission stays so, claims or not, until it is retried or reprocessed. */
  lemma {:induction false} SkippedWaits(states: seq<State>, steps: seq<Step>, i: nat, k: nat)
    requires RunOf(states, steps) && i <= k < |states| && states[i].run.status == Skipped
    requires forall t :: i <= t < k ==> !steps[t].Retry? && !steps[t].Reprocess?
    ensures states[k].run == states[i].run
    decreases k
  {
    hide Apply, Legal, LeaseOk, CommitOk, ConservationOk;
    if i < k {
      SkippedWaits(states, steps, i, k - 1);
      StepIs(states, steps, k - 1);
      NonePending(states[k - 1]);
      SkippedStays(states[k - 1], steps[k - 1]);
    }
  }

  lemma SkippedStays(s: State, step: Step)
    requires LeaseOk(s) && s.run.status == Skipped && s.run.pending == [] && !step.Retry? && !step.Reprocess?
    ensures Apply(s, step).run == s.run
  {
    hide ApplyAll, Screen, Permitted, Evidence, Searched;
  }

  lemma NonePending(s: State)
    requires ConservationOk(s) && !Final(s.run.status)
    ensures s.run.pending == []
  {
    var none: seq<Candidate> := [];
    assert forall c :: c in s.run.pending ==> c in none;
    NoMembers(s.run.pending);
  }

  lemma NoMembers(cs: seq<Candidate>)
    ensures (forall c :: c !in cs) ==> cs == []
  {
    if cs != [] {
      assert cs[0] in cs;
    }
  }

  /** A retry, or a reprocess, which also sets its configuration and clears the outcomes, lets the next claim in; a retry does nothing else. */
  lemma ReopenedIsClaimed(states: seq<State>, steps: seq<Step>, i: nat)
    requires RunOf(states, steps) && i + 1 < |steps| && steps[i + 1].Claim?
    ensures steps[i].Retry? && states[i].run.status == Skipped ==>
              Claims(states, steps, i + 1) && states[i + 1] == states[i].(run := states[i].run.(status := Failed))
    ensures steps[i].Retry? && states[i].run.status != Skipped ==> states[i + 1] == states[i]
    ensures steps[i].Reprocess? && states[i].run.status in {Failed, Skipped} ==>
              Claims(states, steps, i + 1) && states[i + 1].run.fingerprint == steps[i].fingerprint && states[i + 1].run.outcomes == []
    ensures steps[i].Reprocess? && states[i].run.status !in {Failed, Skipped} ==> states[i + 1] == states[i]
  {
    StepIs(states, steps, i);
    ClaimIff(states, steps, i + 1);
  }

  /** The worker's own failure ends its claim: permission skips the run, anything else lets the next claim in. */
  lemma FailureEnds(states: seq<State>, steps: seq<Step>, i: nat)
    requires RunOf(states, steps) && i < |steps| && steps[i].Fail? && states[i].run.claimToken == Some(steps[i].token)
    ensures states[i + 1].run.claimToken.None? && states[i + 1].run.outcomes == []
    ensures states[i + 1].run.status == if steps[i].blocked then Skipped else Failed
    ensures i + 1 < |steps| && steps[i + 1].Claim? ==> (Claims(states, steps, i + 1) <==> !steps[i].blocked)
  {
    StepIs(states, steps, i);
    if i + 1 < |steps| && steps[i + 1].Claim? {
      ClaimIff(states, steps, i + 1);
    }
  }

  // ---------------------------------------------------------------- what a commit reports and creates

  /** What the owner is told about a candidate, in the order the cases are tried. */
  predicate Reports(o: Outcome, c: Candidate, responses: map<nat, Response>) {
    && o.candidateId == c.id
    && (c.disposition == Rejected ==> o.status == RejectedOutcome)
    && (c.disposition != Rejected && c.intent in {Correction, Retraction} ==> o.status == PendingReconciliation)
    && (c.disposition == NeedsClarification && c.intent !in {Correction, Retraction} ==> o.status == AwaitingClarification)
    && (AppliedAtOnce(c) && c.id in responses ==> o.status == Applied(responses[c.id]))
  }

  /** Neither rejected nor put off. */
  predicate AppliedAtOnce(c: Candidate) {
    c.disposition == EligibleCandidate && c.intent !in {Correction, Retraction}
  }

  predicate MakesRecord(c: Candidate, responses: map<nat, Response>) {
    AppliedAtOnce(c) && c.id in responses && responses[c.id] in {MemoryApplied, SuggestionQueued}
  }

  predicate PutOff(c: Candidate) {
    c.disposition != Rejected && !AppliedAtOnce(c)
  }

  predicate Told(outcomes: seq<Outcome>, cs: seq<Candidate>, responses: map<nat, Response>) {
    |outcomes| == |cs| && forall i :: 0 <= i < |cs| ==> Reports(outcomes[i], cs[i], responses)
  }

  predicate ReceiptsTell(receipts: map<ReceiptKey, Receipt>, outcomes: seq<Outcome>, cs: seq<Candidate>)
    requires |outcomes| == |cs|
  {
    forall i :: 0 <= i < |cs| && AppliedAtOnce(cs[i]) ==>
      CandidateKey(cs[i].id) in receipts && receipts[CandidateKey(cs[i].id)] == CandidateReceipt(outcomes[i])
  }

  /** The batch as far as some candidates were handled. */
  predicate BatchTells(b: Batch, created: seq<Candidate>, cs: seq<Candidate>, responses: map<nat, Response>) {
    && Told(b.outcomes, cs, responses) && ReceiptsTell(b.receipts, b.outcomes, cs)
    && b.created == created + Filter(cs, (c: Candidate) => MakesRecord(c, responses))
    && b.pending == Filter(cs, (c: Candidate) => PutOff(c))
    && forall key :: key in b.receipts && key.CandidateKey? ==> key.id in LiveIds(cs)
  }

  lemma HandleOne(b: Batch, created: seq<Candidate>, cs: seq<Candidate>, c: Candidate, responses: map<nat, Response>)
    requires BatchTells(b, created, cs, responses) && (c.disposition != Rejected ==> c.id !in LiveIds(cs))
    requires ApplyOne(b, c, ResponseFor(responses, c.id)).Some?
    ensures BatchTells(ApplyOne(b, c, ResponseFor(responses, c.id)).value, created, cs + [c], responses)
  {
    hide LiveIds, Reports, Told, ReceiptsTell, MakesRecord, PutOff;
    var after := ApplyOne(b, c, ResponseFor(responses, c.id)).value;
    LiveIdsSnoc(cs, c);
    FilterAppend(cs, [c], (x: Candidate) => MakesRecord(x, responses));
    FilterAppend(cs, [c], (x: Candidate) => PutOff(x));
    ReportsOne(b, c, responses);
    ToldSnoc(b, after, cs, c, responses);
  }

  /** One candidate of the loop. */
  lemma ReportsOne(b: Batch, c: Candidate, responses: map<nat, Response>)
    requires c.disposition != Rejected ==> CandidateKey(c.id) !in b.receipts
    requires ApplyOne(b, c, ResponseFor(responses, c.id)).Some?
    ensures var after := ApplyOne(b, c, ResponseFor(responses, c.id)).value;
            && |after.outcomes| == |b.outcomes| + 1 && after.outcomes[..|b.outcomes|] == b.outcomes
            && Reports(after.outcomes[|b.outcomes|], c, responses)
            && after.receipts == (if AppliedAtOnce(c) then b.receipts[CandidateKey(c.id) := CandidateReceipt(after.outcomes[|b.outcomes|])] else b.receipts)
            && after.created == b.created + (if MakesRecord(c, responses) then [c] else [])
            && after.pending == b.pending + (if PutOff(c) then [c] else [])
  {
  }

  lemma ToldSnoc(b: Batch, after: Batch, cs: seq<Candidate>, c: Candidate, responses: map<nat, Response>)
    requires Told(b.outcomes, cs, responses) && ReceiptsTell(b.receipts, b.outcomes, cs)
    requires |after.outcomes| == |b.outcomes| + 1 && after.outcomes[..|b.outcomes|] == b.outcomes
    requires Reports(after.outcomes[|b.outcomes|], c, responses)
    requires c.disposition != Rejected ==> c.id !in LiveIds(cs)
    requires after.receipts == if AppliedAtOnce(c) then b.receipts[CandidateKey(c.id) := CandidateReceipt(after.outcomes[|b.outcomes|])] else b.receipts
    ensures Told(after.outcomes, cs + [c], responses) && ReceiptsTell(after.receipts, after.outcomes, cs + [c])
  {
    hide Reports;
    AppliedAreLive(cs);
    assert forall i :: 0 <= i < |cs| ==> after.outcomes[i] == after.outcomes[..|b.outcomes|][i];
  }

  lemma AppliedAreLive(cs: seq<Candidate>)
    ensures forall i :: 0 <= i < |cs| && AppliedAtOnce(cs[i]) ==> cs[i].id in LiveIds(cs)
  {
  }

  lemma LiveIdsSnoc(cs: seq<Candidate>, c: Candidate)
    ensures LiveIds(cs + [c]) == LiveIds(cs) + if c.disposition == Rejected then {} else {c.id}
  {
  }

  lemma {:induction false} HandleAll(b: Batch, created: seq<Candidate>, done: seq<Candidate>, cs: seq<Candidate>, responses: map<nat, Response>)
    requires BatchTells(b, created, done, responses) && LiveDistinct(done + cs) && ApplyAll(b, cs, responses).Some?
    ensures BatchTells(ApplyAll(b, cs, responses).value, created, done + cs, responses)
    decreases |cs|
  {
    hide BatchTells, ApplyOne, LiveIds, ResponseFor;
    if cs == [] {
      assert done + cs == done;
    } else {
      FreshHead(done, cs);
      HandleOne(b, created, done, cs[0], responses);
      assert (done + [cs[0]]) + cs[1..] == done + cs;
      HandleAll(ApplyOne(b, cs[0], ResponseFor(responses, cs[0].id)).value, created, done + [cs[0]], cs[1..], responses);
    }
  }

  /**
   * What a commit that takes effect says and does: the committed candidates are the provider's, one that repeats an earlier id
   * rejected; each has its outcome, in order, and each applied one its receipt with that outcome; what was put off is
   * pending; and a record was created for exactly the applied ones whose intake made one.
   */
  lemma CommitReports(states: seq<State>, steps: seq<Step>, k: nat)
    requires RunOf(states, steps) && k < |steps| && steps[k].Commit? && states[k + 1].commits != states[k].commits
    ensures |states[k + 1].commits| == 1
    ensures var cs, t := states[k + 1].commits[0], states[k + 1];
            && |cs| == |steps[k].raw|
            && (forall i :: 0 <= i < |cs| ==>
                  cs[i].(disposition := steps[k].raw[i].disposition) == steps[k].raw[i] &&
                  (cs[i].disposition == Rejected <==> steps[k].raw[i].disposition == Rejected || RepeatsEarlier(steps[k].raw, i)) &&
                  (cs[i].disposition != Rejected ==> cs[i] == steps[k].raw[i]))
            && Told(t.run.outcomes, cs, steps[k].responses) && ReceiptsTell(t.receipts, t.run.outcomes, cs)
            && t.run.pending == Filter(cs, (c: Candidate) => PutOff(c))
            && t.created == states[k].created + Filter(cs, (c: Candidate) => MakesRecord(c, steps[k].responses))
            && t.run.claimToken.None? && t.run.leaseUntil.None?
  {
    hide ApplyAll, Permitted, FinalStatus, Conserved, RepeatsEarlier;
    StepIs(states, steps, k);
    var s, step := states[k], steps[k];
    var cs := Screen(step.raw, {});
    assert !Final(s.run.status);
    NothingPending(s);
    ScreenDistinct(step.raw, {});
    assert [] + cs == cs;
    NothingHandled(s, step.responses);
    HandleAll(Batch(s.receipts, s.created, [], []), s.created, [], cs, step.responses);
    forall i | 0 <= i < |cs|
      ensures cs[i].disposition == Rejected <==> step.raw[i].disposition == Rejected || RepeatsEarlier(step.raw, i)
    {
      ScreenRejectsIff(step.raw, {}, i);
    }
  }

  lemma NothingHandled(s: State, responses: map<nat, Response>)
    requires Conserved([], s.receipts, [], s.created)
    ensures BatchTells(Batch(s.receipts, s.created, [], []), s.created, [], responses)
  {
    assert LiveIds([]) == {};
    assert forall id: nat :: CandidateKey(id) in s.receipts ==> id in ReceiptIds(s.receipts);
  }

  /** Intake throws for one of the candidates that are applied at once. */
  predicate IntakeThrows(cs: seq<Candidate>, responses: map<nat, Response>) {
    exists i :: 0 <= i < |cs| && AppliedAtOnce(cs[i]) && cs[i].id in responses && responses[cs[i].id] == Raises
  }

  /** The loop stops exactly at a candidate whose intake throws. */
  lemma {:induction false} ThrowsIff(b: Batch, cs: seq<Candidate>, responses: map<nat, Response>)
    requires LiveDistinct(cs) && forall key :: key in b.receipts && key.CandidateKey? ==> key.id !in LiveIds(cs)
    ensures ApplyAll(b, cs, responses).None? <==> IntakeThrows(cs, responses)
    decreases |cs|
  {
    hide IntakeThrows, ApplyOne;
    if cs == [] {
      NobodyThrows(responses);
    } else {
      var c, rest := cs[0], cs[1..];
      ThrowsNow(b, c, responses);
      ThrowsCons(cs, responses);
      LiveIdsCons(cs);
      if ApplyOne(b, c, ResponseFor(responses, c.id)).Some? {
        ThrowsIff(ApplyOne(b, c, ResponseFor(responses, c.id)).value, rest, responses);
      }
    }
  }

  lemma NobodyThrows(responses: map<nat, Response>)
    ensures !IntakeThrows([], responses)
  {
  }

  lemma ThrowsCons(cs: seq<Candidate>, responses: map<nat, Response>)
    requires cs != []
    ensures IntakeThrows(cs, responses) <==> IntakeThrows([cs[0]], responses) || IntakeThrows(cs[1..], responses)
  {
    if IntakeThrows(cs[1..], responses) {
      var i :| 0 <= i < |cs[1..]| && AppliedAtOnce(cs[1..][i]) && cs[1..][i].id in responses && responses[cs[1..][i].id] == Raises;
      assert cs[i + 1] == cs[1..][i];
    }
    if IntakeThrows([cs[0]], responses) {
      assert AppliedAtOnce(cs[0]) && cs[0].id in responses && responses[cs[0].id] == Raises;
    }
    if IntakeThrows(cs, responses) {
      var i :| 0 <= i < |cs| && AppliedAtOnce(cs[i]) && cs[i].id in responses && responses[cs[i].id] == Raises;
      assert i > 0 ==> cs[1..][i - 1] == cs[i];
      assert i == 0 ==> [cs[0]][0] == cs[i];
    }
  }

  lemma ThrowsNow(b: Batch, c: Candidate, responses: map<nat, Response>)
    requires c.disposition != Rejected ==> CandidateKey(c.id) !in b.receipts
    ensures ApplyOne(b, c, ResponseFor(responses, c.id)).None? <==> IntakeThrows([c], responses)
    ensures ApplyOne(b, c, ResponseFor(responses, c.id)).Some? ==>
              forall key :: key in ApplyOne(b, c, ResponseFor(responses, c.id)).value.receipts ==> key in b.receipts || (key == CandidateKey(c.id) && c.disposition != Rejected)
  {
    assert [c][0] == c;
  }

  lemma LiveIdsCons(cs: seq<Candidate>)
    requires cs != [] && LiveDistinct(cs)
    ensures LiveIds(cs) == LiveIds(cs[1..]) + (if cs[0].disposition == Rejected then {} else {cs[0].id})
    ensures cs[0].disposition != Rejected ==> cs[0].id !in LiveIds(cs[1..])
    ensures LiveDistinct(cs[1..])
  {
    assert cs == [cs[0]] + cs[1..];
  }

  /** The processors are those of the selected system, and every one of them has its key. */
  predicate MayProcess(s: State, processors: seq<Processor>) {
    processors == Processors(Scope.Extraction, s.selected) && forall p :: p in processors ==> HasKey(s.env, p)
  }

  /**
   * A commit takes effect exactly when the worker still holds the run, was not aborted, used the processors that are still selected,
   * and intake throws for none of what is applied at once; otherwise nothing changes.
   */
  lemma CommitIff(states: seq<State>, steps: seq<Step>, k: nat)
    requires RunOf(states, steps) && k < |steps| && steps[k].Commit?
    ensures states[k + 1].commits != states[k].commits <==>
              && states[k].run.claimToken == Some(steps[k].token) && !steps[k].aborted && MayProcess(states[k], steps[k].processors)
              && !IntakeThrows(Screen(steps[k].raw, {}), steps[k].responses)
    ensures states[k + 1].commits == states[k].commits ==> states[k + 1] == states[k]
  {
    hide ApplyAll, FinalStatus, Conserved, IntakeThrows;
    StepIs(states, steps, k);
    var s, step := states[k], steps[k];
    VerdictIs(s.env, Scope.Extraction, s.selected, step.processors, false);
    if s.run.claimToken == Some(step.token) {
      NothingPending(s);
      ScreenDistinct(step.raw, {});
      NoReceipts(s);
      ThrowsIff(Batch(s.receipts, s.created, [], []), Screen(step.raw, {}), step.responses);
      assert |s.commits + [Screen(step.raw, {})]| != |s.commits|;
    }
  }

  lemma NoReceipts(s: State)
    requires Conserved([], s.receipts, [], s.created)
    ensures forall key :: key in s.receipts ==> !key.CandidateKey?
  {
    assert LiveIds([]) == {};
    assert forall id: nat :: CandidateKey(id) in s.receipts ==> id in ReceiptIds(s.receipts);
  }

  /** A candidate that has a receipt is answered from it and nothing is applied again, whatever intake would say now. */
  lemma AnsweredFromReceipt(b: Batch, c: Candidate, response: Response)
    requires CandidateKey(c.id) in b.receipts && b.receipts[CandidateKey(c.id)].CandidateReceipt?
    ensures ApplyCandidate(b, c, response) == Some((b, b.receipts[CandidateKey(c.id)].outcome))
  {
  }

  // ---------------------------------------------------------------- reconciliation

  /** A tool call of the kind was recorded before step k, naming the record. */
  predicate RecordedBefore(steps: seq<Step>, k: nat, kind: ToolKind, id: nat) {
    exists i :: 0 <= i < k && i < |steps| && steps[i].RecordTool? && steps[i].kind == kind && id in steps[i].recordIds
  }

  predicate ToolBefore(steps: seq<Step>, k: nat, kind: ToolKind) {
    exists i :: 0 <= i < k && i < |steps| && steps[i].RecordTool? && steps[i].kind == kind
  }

  lemma StepKeepsTools(s: State, step: Step, kind: ToolKind, id: nat)
    requires ConservationOk(s) && Legal(s, step)
    ensures Searched(Apply(s, step).receipts, kind) <==> Searched(s.receipts, kind) || (step.RecordTool? && step.kind == kind)
    ensures id in Evidence(Apply(s, step).receipts, {kind}) <==>
              id in Evidence(s.receipts, {kind}) || (step.RecordTool? && step.kind == kind && id in step.recordIds)
  {
    hide Permitted, FindPending, Conserved, Screen, Evidence, Searched;
    assert ReceiptsTyped(s.receipts) by { TypedNow(s); }
    if step.Commit? {
      var batch := CommitBatch(s, step.token, step.processors, step.aborted, step.raw, step.responses);
      if batch.Some? {
        BatchKeepsTools(Batch(s.receipts, s.created, [], []), Screen(step.raw, {}), step.responses);
      }
    }
    ToolRows(s.receipts, Apply(s, step).receipts, step, kind, id);
  }

  lemma TypedNow(s: State)
    requires ConservationOk(s)
    ensures ReceiptsTyped(s.receipts)
  {
    hide ReceiptsTyped;
  }

  /** The tool receipts are the old ones, and one more if one was recorded. */
  predicate SameTools(before: map<ReceiptKey, Receipt>, after: map<ReceiptKey, Receipt>) {
    && (forall key :: key in before && key.ToolKey? ==> key in after && after[key] == before[key])
    && (forall key :: key in after && key.ToolKey? ==> key in before)
    && ReceiptsTyped(after)
  }

  lemma {:induction false} BatchKeepsTools(b: Batch, cs: seq<Candidate>, responses: map<nat, Response>)
    requires ReceiptsTyped(b.receipts) && ApplyAll(b, cs, responses).Some?
    ensures SameTools(b.receipts, ApplyAll(b, cs, responses).value.receipts)
    decreases |cs|
  {
    if cs != [] {
      BatchKeepsTools(ApplyOne(b, cs[0], ResponseFor(responses, cs[0].id)).value, cs[1..], responses);
    }
  }

  lemma ToolRows(before: map<ReceiptKey, Receipt>, after: map<ReceiptKey, Receipt>, step: Step, kind: ToolKind, id: nat)
    requires ReceiptsTyped(before)
    requires if step.RecordTool? then
               ToolKey(step.serial) !in before && after == before[ToolKey(step.serial) := ToolReceipt(step.kind, step.recordIds)]
             else SameTools(before, after)
    ensures Searched(after, kind) <==> Searched(before, kind) || (step.RecordTool? && step.kind == kind)
    ensures id in Evidence(after, {kind}) <==> id in Evidence(before, {kind}) || (step.RecordTool? && step.kind == kind && id in step.recordIds)
  {
    if step.RecordTool? {
      var key := ToolKey(step.serial);
      assert key in after && after[key] == ToolReceipt(step.kind, step.recordIds);
    }
    if Searched(before, kind) {
      var key :| key in before && before[key].ToolReceipt? && before[key].kind == kind;
      assert key in after && after[key] == before[key];
    }
    if id in Evidence(before, {kind}) {
      var key :| key in before && before[key].ToolReceipt? && before[key].kind == kind && id in before[key].recordIds;
      assert key in after && after[key] == before[key];
    }
  }

  /** What reconciliation takes as searched, and as evidence, is exactly what the owner's tools have recorded so far. */
  lemma {:induction false} ToolsRecorded(states: seq<State>, steps: seq<Step>, k: nat, kind: ToolKind, id: nat)
    requires RunOf(states, steps) && k < |states|
    ensures Searched(states[k].receipts, kind) <==> ToolBefore(steps, k, kind)
    ensures id in Evidence(states[k].receipts, {kind}) <==> RecordedBefore(steps, k, kind, id)
  {
    hide Apply, Legal, Searched, Evidence, ConservationOk, LeaseOk, CommitOk;
    if k == 0 {
      NoTools(states[0], kind, id);
    } else {
      ToolsRecorded(states, steps, k - 1, kind, id);
      StepIs(states, steps, k - 1);
      StepKeepsTools(states[k - 1], steps[k - 1], kind, id);
    }
  }

  lemma NoTools(s: State, kind: ToolKind, id: nat)
    requires s.receipts == map[]
    ensures !Searched(s.receipts, kind) && id !in Evidence(s.receipts, {kind})
  {
  }

  /** Step k settles its candidate. */
  predicate Settles(states: seq<State>, steps: seq<Step>, k: nat)
    requires |states| == |steps| + 1
  {
    k < |steps| && steps[k].Complete? && CandidateKey(steps[k].id) !in states[k].receipts && CandidateKey(steps[k].id) in states[k + 1].receipts
  }

  /**
   * A candidate that reconciliation settles was searched for in memories and in suggestions before; it is answered with the records
   * the owner's tools changed, or with what intake said, its receipt and its one outcome say the same, and a record is
   * created exactly when intake made one. What is not settled leaves the state alone.
   */
  lemma SettlingReports(states: seq<State>, steps: seq<Step>, k: nat)
    requires RunOf(states, steps) && k < |steps| && steps[k].Complete?
    ensures Settles(states, steps, k) ==>
              && ToolBefore(steps, k, MemorySearch) && ToolBefore(steps, k, SuggestionSearch)
              && states[k + 1].receipts[CandidateKey(steps[k].id)].CandidateReceipt?
              && var o := states[k + 1].receipts[CandidateKey(steps[k].id)].outcome;
                 && o.candidateId == steps[k].id
                 && (match steps[k].resolution
                     case Defer => false
                     case Handled => o.status.Reconciled? && forall id :: id in o.status.recordIds <==> RecordedBefore(steps, k, Mutation, id)
                     case CreateNew => o.status == Applied(steps[k].response))
                 && OnlyOutcome(states[k + 1].run.outcomes, o)
                 && (if steps[k].resolution == CreateNew && steps[k].response in {MemoryApplied, SuggestionQueued}
                     then |states[k + 1].created| == |states[k].created| + 1 && states[k + 1].created[|states[k].created|].id == steps[k].id
                     else states[k + 1].created == states[k].created)
    ensures !Settles(states, steps, k) ==> states[k + 1] == states[k]
  {
    hide Permitted, Searched, ConservationOk, LeaseOk, CommitOk;
    StepIs(states, steps, k);
    var s, step := states[k], steps[k];
    if Settles(states, steps, k) {
      ToolsRecorded(states, steps, k, MemorySearch, 0);
      ToolsRecorded(states, steps, k, SuggestionSearch, 0);
      forall id: nat
        ensures id in Evidence(s.receipts, {Mutation}) <==> RecordedBefore(steps, k, Mutation, id)
      {
        ToolsRecorded(states, steps, k, Mutation, id);
      }
      FindPendingIs(s.run.pending, step.id);
      FilterMembers(s.run.outcomes, (o: Outcome) => o.candidateId != step.id);
    } else {
      AnsweredBefore(states, steps, k);
    }
  }

  /** The outcome is listed and no other speaks of its candidate. */
  predicate OnlyOutcome(outcomes: seq<Outcome>, o: Outcome) {
    o in outcomes && forall x :: x in outcomes && x.candidateId == o.candidateId ==> x == o
  }

  lemma AnsweredBefore(states: seq<State>, steps: seq<Step>, k: nat)
    requires RunOf(states, steps) && k < |steps| && steps[k].Complete? && !Settles(states, steps, k)
    ensures states[k + 1] == states[k]
  {
    hide Permitted, Searched, Evidence;
    StepIs(states, steps, k);
    assert ReceiptsTyped(states[k].receipts) by { TypedNow(states[k]); }
  }

  /** Whom reconciliation asks about: a candidate that is pending and may be settled. */
  predicate PendingNow(s: State, id: nat) {
    exists c :: c in s.run.pending && c.id == id
  }

  /**
   * What reconciliation answers: the outcome on record if there is one; not found if nothing is pending under the id; a deferral, or
   * a candidate not eligible, awaits clarification; and a settled candidate is answered with the outcome just recorded.
   */
  lemma ReconciliationAnswers(states: seq<State>, steps: seq<Step>, k: nat)
    requires RunOf(states, steps) && k < |steps| && steps[k].Complete?
    ensures var s, step, key := states[k], steps[k], CandidateKey(steps[k].id);
            var reply := CompleteStep(s, step.id, step.resolution, step.processors, step.related, step.response).1;
            && (key in s.receipts ==> s.receipts[key].CandidateReceipt? && reply == Answered(s.receipts[key].outcome))
            && (reply == NotFound <==> key !in s.receipts && !PendingNow(s, step.id))
            && (Settles(states, steps, k) ==>
                  states[k + 1].receipts[key].CandidateReceipt? && reply == Answered(states[k + 1].receipts[key].outcome))
            && (key !in s.receipts && !Settles(states, steps, k) && reply.Answered? ==>
                  reply.outcome == Outcome(step.id, if step.resolution == Defer || !EligibleNow(s, step.id) then AwaitingClarification else PendingReconciliation))
            && (reply == Blocked ==> !MayProcess(s, step.processors))
            && (reply == Raised ==> step.resolution == CreateNew && step.response == Raises)
            && (reply == Conflict ==>
                  !ToolBefore(steps, k, MemorySearch) || !ToolBefore(steps, k, SuggestionSearch) || step.resolution.Handled?)
  {
    hide Searched, Evidence, LeaseOk, CommitOk, Conserved;
    StepIs(states, steps, k);
    var s, step := states[k], steps[k];
    VerdictIs(s.env, Scope.Extraction, s.selected, step.processors, false);
    ToolsRecorded(states, steps, k, MemorySearch, 0);
    ToolsRecorded(states, steps, k, SuggestionSearch, 0);
    TypedReceipts(s);
    FindPendingIs(s.run.pending, step.id);
    if FindPending(s.run.pending, step.id).Some? {
      OnlyPending(s, step.id, FindPending(s.run.pending, step.id).value);
    }
  }

  lemma TypedReceipts(s: State)
    requires ConservationOk(s)
    ensures forall key :: key in s.receipts && key.CandidateKey? ==> s.receipts[key].CandidateReceipt?
  {
  }

  predicate EligibleNow(s: State, id: nat) {
    exists c :: c in s.run.pending && c.id == id && c.disposition == EligibleCandidate
  }

  lemma OnlyPending(s: State, id: nat, c: Candidate)
    requires ConservationOk(s) && c in s.run.pending && c.id == id
    ensures PendingNow(s, id) && (EligibleNow(s, id) <==> c.disposition == EligibleCandidate)
  {
    assert DistinctCandidates(s.run.pending);
    if EligibleNow(s, id) {
      var x :| x in s.run.pending && x.id == id && x.disposition == EligibleCandidate;
      var i :| 0 <= i < |s.run.pending| && s.run.pending[i] == x;
      var j :| 0 <= j < |s.run.pending| && s.run.pending[j] == c;
      assert IdOf(s.run.pending[i]) == IdOf(s.run.pending[j]);
    }
  }
}
