/** What every interleaving of workers, retries, reprocesses and reconciliations keeps. */
module ExtractionRuns {
  import opened Common
  import opened Processing
  import opened Extraction

  // ---------------------------------------------------------------- claims, leases and the single commit

  /** RUNNING holds exactly when a claim token is set, exactly when a lease is set. */
  predicate LeaseOk(s: State) {
    && (s.run.status == Running <==> s.run.claimToken.Some?)
    && (s.run.claimToken.Some? <==> s.run.leaseUntil.Some?)
    && (s.run.claimToken.Some? ==> s.run.claimToken.value in s.usedTokens)
  }

  /** At most one outcome was ever committed, and exactly the final statuses have one. */
  predicate CommitOk(s: State) {
    |s.commits| == if Final(s.run.status) then 1 else 0
  }

  lemma StepKeepsLease(s: State, step: Step)
    requires LeaseOk(s) && CommitOk(s)
    ensures LeaseOk(Apply(s, step)) && CommitOk(Apply(s, step))
  {
    hide ApplyAll, Screen, Permitted, Evidence, Searched, FindPending;
  }

  /** A final run is never left and never claimed, committed, failed, retried or reprocessed again. */
  lemma FinalStays(s: State, step: Step)
    requires LeaseOk(s) && Final(s.run.status)
    ensures Apply(s, step).run.status == s.run.status
    ensures Apply(s, step).commits == s.commits && Apply(s, step).run.attempts == s.run.attempts
    ensures Apply(s, step).run.claimToken.None?
  {
    hide ApplyAll, Screen, Permitted, Evidence, Searched, FindPending;
  }

  /** A commit or a failure under a token that is not the current one changes nothing at all. */
  lemma StaleTokenIsInert(s: State, step: Step)
    requires step.Commit? || step.Fail?
    requires s.run.claimToken != Some(step.token)
    ensures Apply(s, step) == s
  {
  }

  /** A provider switch made after a worker read its configuration blocks that worker's commit. */
  lemma ProviderSwitchBlocksCommit(s: State, step: Step, worker: System)
    requires step.Commit? && step.processors == Processors(Scope.Extraction, worker) && s.selected != worker
    ensures Apply(s, step) == s
  {
  }

  /** A failure hands the run back for another claim, unless permission was the reason: then only a retry reopens it. */
  lemma FailureReopensIff(s: State, token: nat, blocked: bool)
    requires LeaseOk(s) && s.run.claimToken == Some(token)
    ensures Claimable(FailStep(s, token, blocked).run, s.now) <==> !blocked
    ensures Claimable(RetryStep(FailStep(s, token, blocked)).run, s.now)
    ensures FailStep(s, token, blocked).commits == s.commits && FailStep(s, token, blocked).receipts == s.receipts
  {
  }

  /** Only a claim puts a token on the row, and it is a fresh one. */
  lemma TokenStep(s: State, step: Step, token: nat)
    requires LeaseOk(s) && CommitOk(s) && Legal(s, step) && token in s.usedTokens && s.run.claimToken != Some(token)
    ensures token in Apply(s, step).usedTokens && Apply(s, step).run.claimToken != Some(token)
  {
  }

  // ---------------------------------------------------------------- conservation of candidates

  function LiveIds(cs: seq<Candidate>): set<nat> {
    set c | c in cs && c.disposition != Rejected :: c.id
  }

  function Ids(cs: seq<Candidate>): set<nat> {
    set c | c in cs :: c.id
  }

  function ReceiptIds(receipts: map<ReceiptKey, Receipt>): set<nat> {
    set key | key in receipts && key.CandidateKey? :: key.id
  }

  /** Non-rejected candidates have pairwise different ids. */
  predicate LiveDistinct(cs: seq<Candidate>) {
    forall i, j :: 0 <= i < j < |cs| && cs[i].disposition != Rejected && cs[j].disposition != Rejected ==>
      cs[i].id != cs[j].id
  }

  function IdOf(c: Candidate): nat { c.id }

  predicate DistinctCandidates(cs: seq<Candidate>) {
    DistinctBy(cs, IdOf)
  }

  /** A record may only come from an eligible candidate that is no retraction. */
  predicate MayCreate(c: Candidate) {
    c.disposition == EligibleCandidate && c.intent != Retraction
  }

  predicate ReceiptsTyped(receipts: map<ReceiptKey, Receipt>) {
    forall key :: key in receipts ==>
      (key.CandidateKey? <==> receipts[key].CandidateReceipt?) &&
      (key.CandidateKey? ==> receipts[key].outcome.candidateId == key.id)
  }

  lemma {:induction false} ScreenDistinct(raw: seq<Candidate>, seen: set<nat>)
    ensures LiveDistinct(Screen(raw, seen))
    ensures forall c :: c in Screen(raw, seen) && c.disposition != Rejected ==> c.id !in seen
  {
    if raw != [] {
      ScreenDistinct(raw[1..], seen + {raw[0].id});
      var rest := Screen(raw[1..], seen + {raw[0].id});
      assert forall i :: 0 <= i < |rest| && rest[i].disposition != Rejected ==> rest[i].id != raw[0].id by {
        assert forall i :: 0 <= i < |rest| ==> rest[i] in rest;
      }
    }
  }

  /**
   * The conservation law for a list of handled candidates: every non-rejected id is either pending or
   * has a receipt, never both; records come only from candidates that may create one, each once.
   */
  predicate Conserved(handled: seq<Candidate>, receipts: map<ReceiptKey, Receipt>, pending: seq<Candidate>, created: seq<Candidate>) {
    && ReceiptsTyped(receipts)
    && LiveIds(handled) == Ids(pending) + ReceiptIds(receipts)
    && Ids(pending) !! ReceiptIds(receipts)
    && DistinctCandidates(pending)
    && (forall c :: c in pending ==> c in handled && c.disposition != Rejected && Waits(c))
    && DistinctCandidates(created)
    && (forall c :: c in created ==> c in handled && MayCreate(c) && c.id in ReceiptIds(receipts))
  }

  lemma DistinctSnoc(cs: seq<Candidate>, c: Candidate)
    requires DistinctCandidates(cs) && c.id !in Ids(cs)
    ensures DistinctCandidates(cs + [c])
  {
  }

  lemma ReceiptIdsAdd(receipts: map<ReceiptKey, Receipt>, id: nat, receipt: Receipt)
    ensures ReceiptIds(receipts[CandidateKey(id) := receipt]) == ReceiptIds(receipts) + {id}
  {
  }

  lemma WaitingConserves(b: Batch, handled: seq<Candidate>, c: Candidate)
    requires Conserved(handled, b.receipts, b.pending, b.created)
    requires Waits(c) && (c.disposition != Rejected ==> c.id !in LiveIds(handled))
    ensures Conserved(handled + [c], b.receipts, if c.disposition == Rejected then b.pending else b.pending + [c], b.created)
  {
  }

  lemma AppliedConserves(b: Batch, handled: seq<Candidate>, c: Candidate, outcome: Outcome, creates: bool)
    requires Conserved(handled, b.receipts, b.pending, b.created)
    requires !Waits(c) && c.id !in LiveIds(handled) && outcome.candidateId == c.id
    ensures Conserved(handled + [c], b.receipts[CandidateKey(c.id) := CandidateReceipt(outcome)], b.pending,
                      if creates then b.created + [c] else b.created)
  {
  }

  /** One candidate of the commit loop keeps the law. */
  lemma ApplyOneConserves(b: Batch, handled: seq<Candidate>, c: Candidate, response: Response)
    requires Conserved(handled, b.receipts, b.pending, b.created)
    requires c.disposition != Rejected ==> c.id !in LiveIds(handled)
    requires ApplyOne(b, c, response).Some?
    ensures var after := ApplyOne(b, c, response).value;
            Conserved(handled + [c], after.receipts, after.pending, after.created)
  {
    if Waits(c) {
      WaitingConserves(b, handled, c);
    } else {
      assert CandidateKey(c.id) in b.receipts ==> c.id in ReceiptIds(b.receipts);
      AppliedConserves(b, handled, c, Outcome(c.id, Applied(response)), CreatesRecord(response));
    }
  }

  lemma {:induction false} ApplyAllConserves(b: Batch, handled: seq<Candidate>, cs: seq<Candidate>, responses: map<nat, Response>)
    requires Conserved(handled, b.receipts, b.pending, b.created)
    requires LiveDistinct(handled + cs)
    requires ApplyAll(b, cs, responses).Some?
    ensures var after := ApplyAll(b, cs, responses).value;
            Conserved(handled + cs, after.receipts, after.pending, after.created)
    decreases |cs|
  {
    hide Conserved, ApplyOne, LiveIds;
    if cs == [] {
      assert handled + cs == handled;
    } else {
      FreshHead(handled, cs);
      ApplyOneConserves(b, handled, cs[0], ResponseFor(responses, cs[0].id));
      assert (handled + [cs[0]]) + cs[1..] == handled + cs;
      ApplyAllConserves(ApplyOne(b, cs[0], ResponseFor(responses, cs[0].id)).value, handled + [cs[0]], cs[1..], responses);
    }
  }

  lemma FreshHead(handled: seq<Candidate>, cs: seq<Candidate>)
    requires cs != [] && LiveDistinct(handled + cs)
    ensures cs[0].disposition != Rejected ==> cs[0].id !in LiveIds(handled)
  {
    var all := handled + cs;
    forall x | x in handled && x.disposition != Rejected && cs[0].disposition != Rejected
      ensures x.id != cs[0].id
    {
      var i :| 0 <= i < |handled| && handled[i] == x;
      assert all[i] == x && all[|handled|] == cs[0];
    }
  }

  /** Before the commit nothing is pending, nothing has a candidate receipt and nothing was created. */
  predicate ConservationOk(s: State) {
    Conserved(if Final(s.run.status) && s.commits != [] then s.commits[0] else [], s.receipts, s.run.pending, s.created)
  }

  lemma CommitConserves(s: State, step: Step)
    requires LeaseOk(s) && CommitOk(s) && ConservationOk(s) && step.Commit?
    ensures ConservationOk(Apply(s, step))
  {
    hide Conserved, ApplyAll, Screen, Permitted, FinalStatus;
    var b := CommitBatch(s, step.token, step.processors, step.aborted, step.raw, step.responses);
    if b.Some? {
      var cs := Screen(step.raw, {});
      ScreenDistinct(step.raw, {});
      assert !Final(s.run.status);
      assert [] + cs == cs;
      NothingPending(s);
      ApplyAllConserves(Batch(s.receipts, s.created, [], []), [], cs, step.responses);
      FinalStatusIsFinal(cs, step.partial);
      assert Apply(s, step).commits == [cs];
    }
  }

  lemma FinalStatusIsFinal(cs: seq<Candidate>, partial: bool)
    ensures Final(FinalStatus(cs, partial))
  {
  }

  lemma NothingPending(s: State)
    requires ConservationOk(s) && !Final(s.run.status)
    ensures Conserved([], s.receipts, [], s.created)
  {
  }

  /** What is found is pending under the id, and nothing is missed. */
  lemma {:induction false} FindPendingIs(pending: seq<Candidate>, id: nat)
    ensures FindPending(pending, id).Some? ==>
              FindPending(pending, id).value in pending && FindPending(pending, id).value.id == id
    ensures FindPending(pending, id).None? ==> forall c :: c in pending ==> c.id != id
  {
    if pending != [] && pending[0].id != id {
      FindPendingIs(pending[1..], id);
      assert pending == [pending[0]] + pending[1..];
    }
  }

  lemma WithoutId(pending: seq<Candidate>, id: nat)
    requires DistinctCandidates(pending)
    ensures var rest := Filter(pending, (c: Candidate) => c.id != id);
            DistinctCandidates(rest) && Ids(rest) == Ids(pending) - {id} && forall c :: c in rest ==> c in pending
  {
    hide DistinctBy;
    var p := (c: Candidate) => c.id != id;
    FilterMembers(pending, p);
    FilterDistinctBy(pending, p, IdOf);
  }

  lemma CompleteConserves(s: State, step: Step)
    requires ConservationOk(s) && step.Complete?
    ensures ConservationOk(Apply(s, step))
  {
    hide Evidence, Searched, Permitted, CreatesRecord, LiveIds;
    var id := step.id;
    var candidate := FindPending(s.run.pending, id);
    FindPendingIs(s.run.pending, id);
    if Apply(s, step) != s {
      var c := candidate.value;
      assert c in s.run.pending && c.id in Ids(s.run.pending);
      var outcome := Apply(s, step).receipts[CandidateKey(id)];
      WithoutId(s.run.pending, id);
      ReceiptIdsAdd(s.receipts, id, outcome);
      forall x | x in s.created
        ensures x.id != id
      {
        assert x.id in ReceiptIds(s.receipts);
      }
      if Apply(s, step).created != s.created {
        DistinctSnoc(s.created, c);
      }
    }
  }

  lemma RecordToolConserves(s: State, step: Step)
    requires ConservationOk(s) && step.RecordTool?
    ensures ConservationOk(Apply(s, step))
  {
  }

  lemma StepConserves(s: State, step: Step)
    requires LeaseOk(s) && CommitOk(s) && ConservationOk(s)
    ensures ConservationOk(Apply(s, step))
  {
    hide Conserved, CommitStep, CompleteStep, RecordToolStep;
    match step
    case Commit(_, _, _, _, _, _) => CommitConserves(s, step);
    case Complete(_, _, _, _, _) => CompleteConserves(s, step);
    case RecordTool(_, _, _) => RecordToolConserves(s, step);
    case _ =>
  }

  // ---------------------------------------------------------------- runs

  lemma {:induction false} Reachable(states: seq<State>, steps: seq<Step>, k: nat)
    requires RunOf(states, steps) && k < |states|
    ensures LeaseOk(states[k]) && CommitOk(states[k]) && ConservationOk(states[k])
  {
    if k > 0 {
      Reachable(states, steps, k - 1);
      StepKeepsLease(states[k - 1], steps[k - 1]);
      StepConserves(states[k - 1], steps[k - 1]);
    } else {
      assert Ids([]) == {} && ReceiptIds(map[]) == {} && LiveIds([]) == {};
    }
  }

  /** Across any interleaving, a run commits at most one outcome and then keeps it for ever. */
  lemma {:induction false} AtMostOneCommit(states: seq<State>, steps: seq<Step>, i: nat, k: nat)
    requires RunOf(states, steps) && i <= k < |states|
    ensures |states[k].commits| <= 1
    ensures Final(states[i].run.status) ==>
              states[k].run.status == states[i].run.status && states[k].commits == states[i].commits
  {
    hide Apply, Legal, ConservationOk;
    Reachable(states, steps, k);
    if i < k {
      AtMostOneCommit(states, steps, i, k - 1);
      Reachable(states, steps, k - 1);
      if Final(states[k - 1].run.status) {
        FinalStays(states[k - 1], steps[k - 1]);
      }
    }
  }

  /**
   * Fencing: once a worker's token is off the row, every later commit or failure write of that worker
   * leaves the state exactly as it was.
   */
  lemma {:induction false} ReplacedTokenStaysInert(states: seq<State>, steps: seq<Step>, token: nat, i: nat, k: nat)
    requires RunOf(states, steps) && i <= k < |steps|
    requires token in states[i].usedTokens && states[i].run.claimToken != Some(token)
    ensures token in states[k].usedTokens && states[k].run.claimToken != Some(token)
    ensures (steps[k].Commit? || steps[k].Fail?) && steps[k].token == token ==> states[k + 1] == states[k]
  {
    hide Apply, Legal, ConservationOk;
    if i < k {
      ReplacedTokenStaysInert(states, steps, token, i, k - 1);
      Reachable(states, steps, k - 1);
      TokenStep(states[k - 1], steps[k - 1], token);
    }
    if (steps[k].Commit? || steps[k].Fail?) && steps[k].token == token {
      StaleTokenIsInert(states[k], steps[k]);
    }
  }

  /** The step is a write of the worker that holds `token`. */
  predicate WritesAs(step: Step, token: nat) {
    (step.Commit? || step.Fail?) && step.token == token
  }

  /** A claim that is still leased at the end of a step, and not written by its worker, survives the step. */
  lemma LeaseSurvives(s: State, step: Step, token: nat)
    requires LeaseOk(s) && s.run.claimToken == Some(token) && !WritesAs(step, token)
    requires Apply(s, step).now <= s.run.leaseUntil.value
    ensures Apply(s, step).run.claimToken == Some(token) && Apply(s, step).run.leaseUntil == s.run.leaseUntil
    ensures Apply(s, step).run.status == Running && s.now <= Apply(s, step).now
  {
    hide ApplyAll, Screen, Permitted, Evidence, Searched, FindPending;
  }

  lemma {:induction false} ClockAdvances(states: seq<State>, steps: seq<Step>, i: nat, k: nat)
    requires RunOf(states, steps) && i <= k < |states|
    ensures states[i].now <= states[k].now
  {
    hide ApplyAll, Screen, Permitted, Evidence, Searched, FindPending;
    if i < k {
      ClockAdvances(states, steps, i, k - 1);
    }
  }

  /**
   * Exclusive work: while a worker's lease lasts and the worker writes nothing itself, no other worker, retry
   * or reprocess takes the run from it.
   */
  lemma {:induction false} LeaseIsExclusive(states: seq<State>, steps: seq<Step>, token: nat, i: nat, k: nat)
    requires RunOf(states, steps) && i <= k < |states| && states[i].run.claimToken == Some(token)
    requires states[i].run.leaseUntil.Some? && states[k].now <= states[i].run.leaseUntil.value
    requires forall t :: i <= t < k ==> !WritesAs(steps[t], token)
    ensures states[k].run.claimToken == Some(token) && states[k].run.leaseUntil == states[i].run.leaseUntil
    ensures states[k].run.status == Running
  {
    hide Apply, Legal, ConservationOk, WritesAs;
    Reachable(states, steps, k);
    if i < k {
      ClockAdvances(states, steps, k - 1, k);
      LeaseIsExclusive(states, steps, token, i, k - 1);
      Reachable(states, steps, k - 1);
      LeaseSurvives(states[k - 1], steps[k - 1], token);
    }
  }

  /** The conservation law in every reachable state after the commit. */
  lemma CandidateConservation(states: seq<State>, steps: seq<Step>, k: nat)
    requires RunOf(states, steps) && k < |states| && Final(states[k].run.status)
    ensures |states[k].commits| == 1
    ensures Conserved(states[k].commits[0], states[k].receipts, states[k].run.pending, states[k].created)
  {
    hide Conserved;
    Reachable(states, steps, k);
  }

  /**
   * Reconciliation settles a candidate exactly when it is pending, unsettled and eligible, the provider choice
   * stands, memories and suggestions were both searched, and either the owner's tools changed every record
   * that matches it, or nothing matches, it retracts nothing and intake accepts it.
   */
  lemma SettledIff(s: State, step: Step)
    requires step.Complete? && ReceiptsTyped(s.receipts)
    ensures var candidate := FindPending(s.run.pending, step.id);
            var matched := Evidence(s.receipts, {MemorySearch, SuggestionSearch}) + step.related;
            var changed := Evidence(s.receipts, {Mutation});
            CandidateKey(step.id) in Apply(s, step).receipts <==>
              CandidateKey(step.id) in s.receipts ||
              (&& candidate.Some? && candidate.value.disposition == EligibleCandidate
               && Permitted(s, step.processors)
               && Searched(s.receipts, MemorySearch) && Searched(s.receipts, SuggestionSearch)
               && match step.resolution
                  case Defer => false
                  case Handled => changed != {} && matched <= changed
                  case CreateNew => matched == {} && candidate.value.intent != Retraction && step.response != Raises)
  {
    hide Evidence, Searched, Permitted, FindPending;
  }

  /** The i-th candidate uses an id an earlier one used. */
  predicate RepeatsEarlier(raw: seq<Candidate>, i: nat)
    requires i < |raw|
  {
    exists j :: 0 <= j < i && raw[j].id == raw[i].id
  }

  /** A candidate comes out rejected exactly when the provider rejected it or its id was used before. */
  lemma {:induction false} ScreenRejectsIff(raw: seq<Candidate>, seen: set<nat>, i: nat)
    requires i < |raw|
    ensures Screen(raw, seen)[i].disposition == Rejected <==>
              raw[i].disposition == Rejected || raw[i].id in seen || RepeatsEarlier(raw, i)
  {
    if i > 0 {
      var rest := raw[1..];
      ScreenRejectsIff(rest, seen + {raw[0].id}, i - 1);
      assert Screen(raw, seen)[i] == Screen(rest, seen + {raw[0].id})[i - 1];
      if RepeatsEarlier(rest, i - 1) {
        var j :| 0 <= j < i - 1 && rest[j].id == rest[i - 1].id;
        assert raw[j + 1].id == raw[i].id;
      }
      if RepeatsEarlier(raw, i) && raw[0].id != raw[i].id {
        var j :| 0 <= j < i && raw[j].id == raw[i].id;
        assert rest[j - 1].id == rest[i - 1].id;
      }
    }
  }

  /** A commit is complete exactly when the provider finished, rejected nothing and used no id twice; otherwise partial. */
  lemma CommitStatusIff(s: State, step: Step)
    requires step.Commit? && Apply(s, step).commits != s.commits
    ensures Apply(s, step).run.status == Completed <==>
              !step.partial && forall i :: 0 <= i < |step.raw| ==>
                step.raw[i].disposition != Rejected && !RepeatsEarlier(step.raw, i)
    ensures Apply(s, step).run.status in {Completed, Partial}
  {
    hide ApplyAll, Permitted, Screen, RepeatsEarlier;
    var screened := Screen(step.raw, {});
    forall i | 0 <= i < |screened|
      ensures screened[i].disposition == Rejected <==> step.raw[i].disposition == Rejected || RepeatsEarlier(step.raw, i)
    {
      ScreenRejectsIff(step.raw, {}, i);
    }
    assert forall i :: 0 <= i < |screened| ==> screened[i] in screened;
  }

  lemma StepKeepsReceipt(s: State, step: Step, id: nat)
    requires LeaseOk(s) && CommitOk(s) && ConservationOk(s) && Legal(s, step) && CandidateKey(id) in s.receipts
    ensures CandidateKey(id) in Apply(s, step).receipts && Apply(s, step).receipts[CandidateKey(id)] == s.receipts[CandidateKey(id)]
    ensures forall c :: c in Apply(s, step).created && c.id == id ==> c in s.created
  {
    hide Evidence, Searched, Permitted, CreatesRecord, ApplyAll, Screen, FindPending;
    assert id in ReceiptIds(s.receipts);
    assert Final(s.run.status);
    if step.Commit? {
      StaleTokenIsInert(s, step);
    }
    if step.Complete? {
      FindPendingIs(s.run.pending, step.id);
    }
  }

  /** A candidate that has a receipt is finished: whatever runs later, the receipt stays and nothing is created from it again. */
  lemma {:induction false} ReceiptIsFinal(states: seq<State>, steps: seq<Step>, i: nat, k: nat, id: nat)
    requires RunOf(states, steps) && i <= k < |states| && CandidateKey(id) in states[i].receipts
    ensures CandidateKey(id) in states[k].receipts && states[k].receipts[CandidateKey(id)] == states[i].receipts[CandidateKey(id)]
    ensures forall c :: c in states[k].created && c.id == id ==> c in states[i].created
    decreases k
  {
    hide Apply, Legal, ConservationOk, LeaseOk, CommitOk;
    if i < k {
      ReceiptIsFinal(states, steps, i, k - 1, id);
      Reachable(states, steps, k - 1);
      StepKeepsReceipt(states[k - 1], steps[k - 1], id);
    }
  }
}
