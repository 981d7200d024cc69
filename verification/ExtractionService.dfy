/**
 * The extraction services as statements over one run row and its receipt rows. A thrown exception
 * rolls its transaction back; each method is proved to be the matching step of module Extraction.
 */
module ExtractionService {
  import opened Common
  import opened Processing
  import opened Extraction
  import ExtractionRuns

  class ExtractionRunService {
    var run: Run
    var receipts: map<ReceiptKey, Receipt>
    var selected: System
    var now: int
    const env: Env
    ghost var usedTokens: set<nat>
    ghost var commits: seq<seq<Candidate>>
    ghost var created: seq<Candidate>

    ghost function Abs(): State
      reads this
    {
      State(run, receipts, env, selected, usedTokens, commits, created, now)
    }

    /** `upsert` of the run row on first processing. */
    constructor (env: Env, selected: System, fingerprint: nat, startedAt: int)
      ensures Initial(Abs()) && this.env == env && this.selected == selected && now == startedAt
    {
      run := Run(PendingRun, None, None, 0, fingerprint, [], []);
      receipts, this.env, this.selected, now := map[], env, selected, startedAt;
      usedTokens, commits, created := {}, [], [];
    }

    method ClaimRun(token: nat, deadline: int) returns (count: nat)
      modifies this`run, this`usedTokens
      ensures Abs() == ClaimStep(old(Abs()), token, deadline)
      ensures count == if Claimable(old(run), now) then 1 else 0
    {
      usedTokens := usedTokens + {token};
      if run.status !in {PendingRun, Failed, Running} || !(run.leaseUntil.None? || run.leaseUntil.value < now) {
        return 0;
      }
      run := run.(status := Running, claimToken := Some(token), leaseUntil := Some(deadline + LEASE_SLACK_MS),
                  attempts := run.attempts + 1);
      count := 1;
    }

    method Retry()
      modifies this`run
      ensures Abs() == RetryStep(old(Abs()))
    {
      if run.status == Skipped {
        run := run.(status := Failed);
      }
    }

    method Reprocess(configuration: nat) returns (changed: bool)
      modifies this`run
      ensures Abs() == ReprocessStep(old(Abs()), configuration)
      ensures changed <==> old(run).status in {Failed, Skipped} && old(run).leaseUntil.None?
    {
      if run.status !in {Failed, Skipped} || run.leaseUntil.Some? {
        return false;
      }
      run := run.(fingerprint := configuration, status := PendingRun, outcomes := []);
      changed := true;
    }

    /** None is an exception from validation or intake. */
    method ApplyToReceipts(c: Candidate, response: Response) returns (outcome: Option<Outcome>)
      modifies this`receipts, this`created
      ensures var applied := ApplyCandidate(Batch(old(receipts), old(created), [], []), c, response);
              if applied.None? then outcome.None? && receipts == old(receipts) && created == old(created)
              else outcome == Some(applied.value.1) && receipts == applied.value.0.receipts &&
                   created == applied.value.0.created
    {
      var key := CandidateKey(c.id);
      if key in receipts && receipts[key].CandidateReceipt? {
        return Some(receipts[key].outcome);
      }
      if response == Raises {
        return None;
      }
      var result := Outcome(c.id, Applied(response));
      if CreatesRecord(response) {
        created := created + [c];
      }
      receipts := receipts[key := CandidateReceipt(result)];
      outcome := Some(result);
    }

    /** The candidate loop of a commit; None is an exception, after which the rows are rolled back. */
    method ApplyCandidates(candidates: seq<Candidate>, responses: map<nat, Response>)
      returns (result: Option<(seq<Outcome>, seq<Candidate>)>)
      modifies this`receipts, this`created
      ensures var batch := ApplyAll(Batch(old(receipts), old(created), [], []), candidates, responses);
              if batch.None? then result.None? && receipts == old(receipts) && created == old(created)
              else result == Some((batch.value.outcomes, batch.value.pending)) &&
                   receipts == batch.value.receipts && created == batch.value.created
    {
      hide ApplyOne, ApplyCandidate;
      var saved := receipts;
      var results: seq<Outcome>, waiting: seq<Candidate> := [], [];
      ghost var whole := ApplyAll(Batch(receipts, created, [], []), candidates, responses);
      for i := 0 to |candidates|
        invariant ApplyAll(Batch(receipts, created, results, waiting), candidates[i..], responses) == whole
      {
        var candidate := candidates[i];
        ghost var before := Batch(receipts, created, results, waiting);
        ApplyAllNext(before, candidates, i, responses);
        if Waits(candidate) {
          WaitingIs(before, candidate, ResponseFor(responses, candidate.id));
          if candidate.disposition != Rejected {
            waiting := waiting + [candidate];
          }
          results := results + [WaitingOutcome(candidate)];
          continue;
        }
        AppliedIs(before, candidate, ResponseFor(responses, candidate.id));
        var outcome := ApplyToReceipts(candidate, ResponseFor(responses, candidate.id));
        if outcome.None? {
          receipts, created := saved, old(created);
          return None;
        }
        results := results + [outcome.value];
      }
      assert candidates[|candidates|..] == [];
      result := Some((results, waiting));
    }

    /** `ok` is false when the transaction throws. */
    method PersistOutcome(
      token: nat, processors: seq<Processor>, aborted: bool, raw: seq<Candidate>, partial: bool, responses: map<nat, Response>
    ) returns (ok: bool)
      modifies this`run, this`receipts, this`created, this`commits
      ensures Abs() == CommitStep(old(Abs()), token, processors, aborted, raw, partial, responses)
      ensures ok <==> CommitBatch(old(Abs()), token, processors, aborted, raw, responses).Some?
    {
      hide ApplyAll, FinalStatus, Screen;
      var candidates := RejectRepeated(raw);
      if run.claimToken != Some(token) || aborted || !Check(env, Scope.Extraction, selected, processors, false).Allowed? {
        return false;
      }
      var applied := ApplyCandidates(candidates, responses);
      if applied.None? {
        return false;
      }
      run := run.(status := FinalStatus(candidates, partial), outcomes := applied.value.0, pending := applied.value.1,
                  leaseUntil := None, claimToken := None);
      commits := commits + [candidates];
      ok := true;
    }

    method PersistFailure(token: nat, blocked: bool)
      modifies this`run
      ensures Abs() == FailStep(old(Abs()), token, blocked)
    {
      if run.claimToken == Some(token) {
        run := run.(status := if blocked then Skipped else Failed, outcomes := [], claimToken := None, leaseUntil := None);
      }
    }

    method RecordTool(serial: nat, kind: ToolKind, recordIds: set<nat>)
      requires ToolKey(serial) !in receipts
      modifies this`receipts
      ensures Abs() == RecordToolStep(old(Abs()), serial, kind, recordIds)
    {
      receipts := receipts[ToolKey(serial) := ToolReceipt(kind, recordIds)];
    }

    method Complete(
      id: nat, resolution: Resolution, processors: seq<Processor>, related: set<nat>, response: Response
    ) returns (reply: Reply)
      modifies this`run, this`receipts, this`created
      ensures (Abs(), reply) == CompleteStep(old(Abs()), id, resolution, processors, related, response)
    {
      hide Evidence, Searched, FindPending, Check, CreatesRecord;
      var key := CandidateKey(id);
      if key in receipts && receipts[key].CandidateReceipt? {
        return Answered(receipts[key].outcome);
      }
      var candidate := FindPending(run.pending, id);
      if candidate.None? {
        return NotFound;
      }
      if resolution == Defer || candidate.value.disposition != EligibleCandidate {
        return Answered(Outcome(id, AwaitingClarification));
      }
      if !Check(env, Scope.Extraction, selected, processors, false).Allowed? {
        return Blocked;
      }
      if !Searched(receipts, MemorySearch) || !Searched(receipts, SuggestionSearch) {
        return Conflict;
      }
      var matched := Evidence(receipts, {MemorySearch, SuggestionSearch}) + related;
      var mutated := Evidence(receipts, {Mutation});
      if resolution == CreateNew && (matched != {} || candidate.value.intent == Retraction) {
        return Answered(Outcome(id, PendingReconciliation));
      }
      if resolution == Handled && (mutated == {} || !(matched <= mutated)) {
        return Conflict;
      }
      ExtractionRuns.FindPendingIs(run.pending, id);
      var outcome := Outcome(id, Reconciled(mutated));
      if resolution == CreateNew {
        var applied := ApplyToReceipts(candidate.value, response);
        if applied.None? {
          return Raised;
        }
        outcome := applied.value;
      } else {
        receipts := receipts[key := CandidateReceipt(outcome)];
      }
      run := run.(pending := Filter(run.pending, (c: Candidate) => c.id != id),
                  outcomes := Filter(run.outcomes, (o: Outcome) => o.candidateId != id) + [outcome]);
      reply := Answered(outcome);
    }
  }

  lemma ApplyAllNext(b: Batch, cs: seq<Candidate>, i: nat, responses: map<nat, Response>)
    requires i < |cs|
    ensures var next := ApplyOne(b, cs[i], ResponseFor(responses, cs[i].id));
            ApplyAll(b, cs[i..], responses)
            == if next.None? then None else ApplyAll(next.value, cs[i + 1..], responses)
  {
  }

  lemma WaitingIs(b: Batch, c: Candidate, response: Response)
    requires Waits(c)
    ensures ApplyOne(b, c, response) == Some(b.(
              pending := if c.disposition == Rejected then b.pending else b.pending + [c],
              outcomes := b.outcomes + [WaitingOutcome(c)]))
  {
  }

  lemma AppliedIs(b: Batch, c: Candidate, response: Response)
    requires !Waits(c)
    ensures var applied := ApplyCandidate(Batch(b.receipts, b.created, [], []), c, response);
            ApplyOne(b, c, response)
            == if applied.None? then None
               else Some(Batch(applied.value.0.receipts, applied.value.0.created, b.outcomes + [applied.value.1], b.pending))
  {
  }
}
