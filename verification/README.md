# Verified model of the Funes vault protocols

Funes Vault keeps a person's memories behind a set of small services over Postgres rows: applications ask
for memories and the owner approves what they may see, chat messages are turned into memories by competing
workers, a scheduled job archives duplicates, connectors hold OAuth grants, an HTTP server serves MCP
sessions, and a vault can be exported and restored. This project models those services in Dafny 4.11 and
proves what each protocol keeps over every run, every interleaving and every input.

Run `dafny verify dfyconfig.toml` to check it.

## How the model is built

Each `$transaction` is one atomic step; a bare conditional update is a compare-and-set step. For every
protocol there is

- a data model and one specification function per transaction, collected in `Step`, `Legal` and `Apply`
  (`Disclosure`, `Extraction`, `Archive`, `Inspection`, `OAuth`, `OAuthStatements`, `ConsentDecisions`, `Locks`);
- a class or method with the statements of the service, proved equal to that function
  (`DisclosureService`, `ExtractionService`, `ArchiveService`, `OAuthService`, and the methods inside
  `Bundles`, `Processing`, `Judge`, `Dedupe`, `Duplicates`, `Inspection`, `McpServer`, `Import`, `ImportNames`, `Validation`);
- theorems about runs of the steps, by invariants that every step keeps
  (`DisclosureRuns`, `DisclosureTheorems`, `ExtractionRuns`, `ArchiveRuns`, `InspectionRuns`, `OAuthRuns`, `OAuthRaces`);
- theorems that say what each operation answers and leaves behind over every run, and where what is stored comes from,
  in terms of rows and steps and without the specification functions
  (`DisclosureOutcomes`, `ExtractionOutcomes`, `ArchiveOutcomes`, `OAuthOutcomes`, and the last parts of `Judge`,
  `InspectionRuns`, `McpServer` and `Import`).

`Legal` says what a step may be given, never what it must find: every error path of the code is a step that
is legal and answers with the error. Runs interleave the services with anything the owner may do meanwhile.

Assumptions:

- In `OAuth` a whole endpoint call is one step: exchanges, refreshes, revocations, and consent decisions with the check
  that precedes their transaction. What becomes of these calls when their statements interleave is proved in
  `OAuthStatements`, `OAuthRaces` and `ConsentDecisions`; a client update stays one step everywhere.
- One owner. Ids, random tokens and session ids are opaque numbers that are never handed out twice; a hash of
  a credential is the credential.
- SHA-256 over `JSON.stringify` is injective: a disclosure revision is the record it is computed from, with the
  version table as a map (the order of its keys carries no meaning).
- Every write that stores a clock reading stores a later one than all writes before it; otherwise the clock may
  stand still. Rate limiting and sweeping only need a clock that does not go back.
- Memories are soft-deleted, as in the services; a memory row never disappears.
- Provider answers, retrieval hits, discovered pairs and similarity scores are arbitrary values. Retrieval
  returns each memory at most once with a score of at least zero, as `retrieval.service.ts` ensures.
- Strings are sequences of code units; lower-casing is that of the ASCII letters.
- Every edit of a memory, and every edit of a policy's own columns, gets a new version. An edit that only changes a
  policy's category relations may keep the version: it is a step of its own (`RelabelPolicy`), and every disclosure
  result holds with it.
- Candidate ids do not begin with the prefix of the tool receipts.

Results that differ from what one might expect of the code:

- Approval and delivery: an approval followed only by previews and time is delivered exactly when, besides the
  fifteen minutes, the policy and the selected memories have not expired and no selected text is blank
  (`ApprovalDeliveredIff`; the stored snapshot is parsed again and a blank text does not parse).
- The greedy filter keeps survivors unarchived exactly when it reaches no proposal that names its own target as
  its survivor (`SurvivorsSurviveIff`, `SelfCanonicalArchived`); the three producers never make one (`Producers`).
- Consent does not always put the operations of the granted scopes into the policy: an existing policy is rewritten
  only when the merged list has another length. `ConsentMissesSuggest` shows the input, `ConsentCoversIff` the exact
  condition, and `ConsentCoversDistinct` that a policy without repeated operations is always widened.
- Statement by statement, a revocation that searches for tokens and then revokes what it found leaves no token live,
  and none to come, exactly when nothing came of any exchange or refresh under way while it ran
  (`RevocationKillsIff`); `RefreshEscapesReplay` is a run in which a refresh between the two statements of a replay
  leaves a live pair. With whole endpoint calls as steps a replay always kills the lineage (`ReplayKillsLineage`).
- Blocking a client cuts it off exactly when no exchange or refresh of it has passed its check without having minted
  (`BlockingKillsIff`); one that has still mints, and unblocking makes its tokens usable (`MintsInTheEnd`).
- A refresh token is rotated once unless two refreshes verify it before either spends it (`OneUnspentToken`,
  `OverlapSplits`), and an authorization request is decided once unless two calls load it before either decides it
  (`DecidedOnceUnlessOverlap`, `OverlapDecidesTwice`): nobody looks at how many rows the spending changed, and the
  decision is unconditional.
- A bundle respects its token budget exactly when the budget is positive (`BudgetRespectedIff`).
- Fewer than twice the maximum is admitted per window length, and one request when the maximum is zero,
  because the first request of a window is never counted against the maximum (`RateBound`, `RateBoundTight`).
- The number of created clients an import reports is right exactly when the exported ids are distinct
  (`ClientCountIff`): the export schema does not ask for that.
- Of the pairs found for the same two memories the best one is not always kept: `LexicalReplacesBetter` shows the
  input and `BestKeptIff` the exact condition on what the queries found.

## Model

| member | source | states |
|---|---|---|
| Bundles.Compile | apps/api/src/memory-requests/bundle-compiler.service.ts:29-78 | the loop returns the first-fit bundle and the sum of its token estimates |
| Bundles.EstimateTokens | apps/api/src/memory-requests/bundle-compiler.service.ts:86-88 | the estimate is the least number of four-character tokens that covers the text, and at least one |
| Bundles.Clip | apps/api/src/memory-requests/bundle-compiler.service.ts:90-98 | a text that fits is kept; otherwise a prefix of at most four characters a token, one at least, that loses only white space before the cut |
| Bundles.BundleGuarantee | apps/api/src/memory-requests/bundle-compiler.service.ts:29-78 | for every positive budget: first candidate in, order kept, total within budget, only the first item clipped, no skipped candidate fits what is left |
| Bundles.BudgetRespectedIff | apps/api/src/memory-requests/bundle-compiler.service.ts:37-66 | a non-empty bundle is within its budget exactly when the budget is positive |
| Bundles.SelectionRespectsBudget | apps/api/src/memory-requests/disclosure-review.service.ts:166-172 | whatever part of a bundle the owner selects is within the budget |
| Bundles.CompiledFrom | apps/api/src/memory-requests/bundle-compiler.service.ts:33-69 | every item is the text of one candidate and no candidate appears twice |
| Bundles.ItemShows | apps/api/src/memory-requests/bundle-compiler.service.ts:29-98 | an item has its candidate's own attributes, title and body in full when they fit and a prefix otherwise, and the score in thousandths |
| Permissions.DenialReason | apps/api/src/policies/policy-evaluation.service.ts:162-204 | no reason exactly for active, approved, unexpired memories below the ceiling, in an allowed and in no denied category |
| Permissions.EvaluateForClient | apps/api/src/policies/policy-evaluation.service.ts:47-107 | a client may read exactly with an unexpired read policy and unless it is blocked |
| Permissions.PermitsOverTime | apps/api/src/policies/policy-evaluation.service.ts:109-204 | under one policy, time changes a memory's permission only through the memory's or the policy's expiry |
| Permissions.FirstDenial | apps/api/src/policies/policy-evaluation.service.ts:47-107 | the reason given to a client is that of the first check that fails |
| Permissions.FirstReason | apps/api/src/policies/policy-evaluation.service.ts:162-204 | the reason given for a memory is that of the first check that fails |
| DisclosureService.DisclosureReviewService.Context | apps/api/src/memory-requests/disclosure-context.ts:11-53 | the live client, policy, memories and permissions of a request |
| DisclosureService.DisclosureReviewService.RequireFreshReview | apps/api/src/memory-requests/disclosure-state.ts:5-21 | the row returns to review without approval or snapshot |
| DisclosureService.DisclosureReviewService.Invalidate | apps/api/src/memory-requests/disclosure-review.service.ts:336-363 | the row returns to review under the policy version found now, and the denial is logged |
| DisclosureService.DisclosureReviewService.PreviewDisclosure | apps/api/src/memory-requests/disclosure-preview.ts:20-101 | snapshot, revision and canApprove of a preview, and the one change it may make to the row |
| DisclosureService.DisclosureReviewService.ShowPreview | apps/api/src/memory-requests/disclosure-review.service.ts:119-127 | the preview endpoint is the preview step |
| DisclosureService.DisclosureReviewService.DecideDeny | apps/api/src/memory-requests/disclosure-review.service.ts:134-154 | denying is the deny step, whose outcome is `DenyIff`, and a conflict unless the request waits for review |
| DisclosureService.DisclosureReviewService.DecideApprove | apps/api/src/memory-requests/disclosure-review.service.ts:155-201 | approving is the approve step; every refusal leaves all rows as they were |
| DisclosureService.DisclosureReviewService.Result | apps/api/src/memory-requests/disclosure-review.service.ts:204-334 | retrieval is the retrieve step: delivery, invalidation, or an empty answer |
| DisclosureService.DisclosureReviewService.CreateBundleRequest | apps/api/src/memory-requests/memory-requests.service.ts:34-222 | creating a request is the create step: denied, waiting, or fulfilled at once |
| DisclosureRuns.FreshPreview | apps/api/src/memory-requests/disclosure-preview.ts:49-70 | a preview under review shows each live permitted memory at most once, with its compiled text and version |
| DisclosureRuns.PreviewKeepsStatus | apps/api/src/memory-requests/disclosure-preview.ts:40-48 | no preview changes a request's status |
| DisclosureRuns.StepKeepsRows | apps/api/src/memory-requests/disclosure-review.service.ts:173-190 | only approved rows hold a snapshot, never empty and never with a memory twice |
| DisclosureRuns.StepKeepsAudit | apps/api/src/memory-requests/disclosure-review.service.ts:258-318 | every step keeps events and item rows in agreement with the statuses |
| DisclosureRuns.Reachable | apps/api/src/memory-requests/disclosure-review.service.ts:129-334 | the invariant holds in every reachable vault |
| DisclosureTheorems.DecisionIff | apps/api/src/memory-requests/memory-requests.service.ts:77-94 | a request is fulfilled, waits or is denied exactly by the live authority, what it may see and whether the policy asks for confirmation |
| DisclosureTheorems.DirectDelivery | apps/api/src/memory-requests/memory-requests.service.ts:144-222 | a request fulfilled at once delivers current texts of permitted memories, each once, within the budget |
| DisclosureTheorems.StaysTerminal | apps/api/src/memory-requests/disclosure-review.service.ts:224-226 | over every run a fulfilled or denied request keeps all but a deleted policy's id; only deleting its client removes it, and for good |
| DisclosureTheorems.DeliveredAtMostOnce | apps/api/src/memory-requests/disclosure-review.service.ts:310-318 | a request is delivered through retrieval at most once in every run |
| DisclosureTheorems.SingleAuditedDelivery | apps/api/src/memory-requests/disclosure-review.service.ts:258-309 | exactly one disclosure event for a fulfilled request, listing exactly its item rows, and none otherwise |
| DisclosureTheorems.GrantOrigin | apps/api/src/memory-requests/disclosure-review.service.ts:173-190 | every approved row goes back to one earlier approval that granted exactly what it holds |
| DisclosureTheorems.VersionFixesContent | apps/api/src/memory-requests/disclosure-snapshot.ts:51-60 | a memory at an earlier version has its earlier content |
| DisclosureTheorems.DisclosureIntegrity | apps/api/src/memory-requests/disclosure-review.service.ts:156-257 | what is delivered is what the owner selected from the previewed revision, still current, still permitted, in time |
| DisclosureTheorems.ApprovedPreviewAgrees | apps/api/src/memory-requests/disclosure-preview.ts:71-82 | previewing an approved request changes nothing and shows the grant exactly when retrieval would deliver it |
| DisclosureTheorems.QuietInterval | apps/api/src/memory-requests/disclosure-preview.ts:34-48 | any number of previews and ticks leave an approved row as it was |
| DisclosureTheorems.DeliverableIff | apps/api/src/memory-requests/disclosure-snapshot.ts:63-77 | after an approval and no owner edit, deliverable exactly while in time and unexpired |
| DisclosureTheorems.ApprovalDeliveredIff | apps/api/src/memory-requests/disclosure-review.service.ts:224-257 | an approval followed by previews and ticks is delivered in full exactly under that condition |
| DisclosureOutcomes.DenyIff | apps/api/src/memory-requests/disclosure-review.service.ts:134-154 | over every run, denying is answered Done exactly when the request waits for review; then the row is denied and logged, and otherwise nothing changes |
| DisclosureOutcomes.DeniedForGood | apps/api/src/memory-requests/disclosure-review.service.ts:134-154 | a denied request stays denied until its client is deleted: no later approval succeeds and nothing of it is ever delivered |
| DisclosureOutcomes.ApproveIff | apps/api/src/memory-requests/disclosure-review.service.ts:155-201 | approving succeeds exactly when the request waits, a preview at that moment could be approved and has the submitted revision, and every selected id is one of its items; then exactly those items are granted for fifteen minutes, and otherwise nothing changes |
| DisclosureOutcomes.PreviewShows | apps/api/src/memory-requests/disclosure-preview.ts:49-101 | a preview of a request that is not approved can be approved exactly when it waits, its client may read under its own policy and some memory found is permitted; it shows the bundle of exactly those, as they are now |
| DisclosureOutcomes.PreviewWrites | apps/api/src/memory-requests/disclosure-preview.ts:34-48 | a preview writes exactly when the request waits and its policy is gone, replaced or edited; then the request waits on, bound to the live version if the policy is still its own, and that is logged |
| DisclosureOutcomes.RequestOrigin | apps/api/src/memory-requests/memory-requests.service.ts:95-143 | every request goes back to the one call that made it and keeps its client and budget |
| DisclosureOutcomes.CreateAnswers | apps/api/src/memory-requests/memory-requests.service.ts:77-222 | creating delivers the bundle of exactly what the policy permits, or waits, or is denied, and stores what it answers |
| DisclosureOutcomes.RetrieveRefuses | apps/api/src/memory-requests/disclosure-review.service.ts:204-257 | which answer a retrieval gives when it delivers nothing, and what it leaves of the row |
| DisclosureOutcomes.RefusedNeedsFreshApproval | apps/api/src/memory-requests/disclosure-review.service.ts:336-363 | once a retrieval found a grant stale or late, a later delivery has another successful approval in between |
| DisclosureOutcomes.DeliveryRecorded | apps/api/src/memory-requests/disclosure-review.service.ts:258-334 | whatever is delivered, at once or later, is recorded item by item, announced by one event with exactly its ids, and leaves no grant |
| Processing.ForUser | apps/api/src/memory-processing/memory-processing-config.service.ts:154-174 | the selected system of each scope is its last saved one or the default; unreadable rows are an error |
| Processing.SetProvider | apps/api/src/memory-processing/memory-processing-config.service.ts:176-213 | only a configured system is saved, nothing changes when a row is unreadable, and otherwise it becomes the selected one of that scope alone |
| Processing.SystemRules | apps/api/src/memory-processing/memory-processing-config.service.ts:22-103 | which keys make a system available, which system is the default, and which processors each uses |
| Processing.SelectedIsLast | apps/api/src/memory-processing/memory-processing-config.service.ts:154-174 | the selected system of a scope is that of its last row, whatever rows the other scope has |
| Processing.VerdictIs | apps/api/src/memory-processing/processing-permission.service.ts:18-42 | the first failing check decides: secrets, the processors of the selected system, and their keys |
| Validation.ValidateCandidate | apps/api/src/memory-processing/validation.ts:5-70 | a candidate is kept, put to clarification without its expiry, or rejected, by secrets, categories, citations, atomicity and expiry in that order |
| Validation.ValidatedAs | apps/api/src/memory-processing/validation.ts:5-70 | for every proposal, which disposition and which expiry it leaves with; everything else stays |
| Validation.GroundedIff | apps/api/src/memory-processing/validation.ts:15-45 | grounded exactly when free of secrets, in known categories, citing its source, and quoting word for word |
| Validation.InvokeProvider | apps/api/src/memory-processing/extraction-provider.service.ts:149-164 | every candidate is validated, and one that repeats an earlier id is rejected whatever it says |
| Validation.EligibleIff | apps/api/src/memory-processing/validation.ts:15-69 | a candidate stays eligible exactly when the provider called it so, it is grounded, atomic, unexpired as its source says, and the first of its id |
| Validation.RecordsAreGrounded | apps/api/src/memory-processing/extraction-outcome-writer.ts:93-128 | over every run of workers, retries and reconciliations: behind each record created from a source stands a proposal in known categories that quotes the owner's messages word for word, the source among them |
| ExtractionService.ExtractionRunService.ClaimRun | apps/api/src/memory-processing/extraction-run.service.ts:131-155 | the claim is the conditional claim step, with its count; its lease is that of `LeaseCoversDeadline` and `TakeoverIff` |
| ExtractionService.ExtractionRunService.Retry | apps/api/src/memory-processing/extraction-run.service.ts:98-109 | retry reopens skipped runs only |
| ExtractionService.ExtractionRunService.Reprocess | apps/api/src/memory-processing/extraction-run.service.ts:46-96 | reprocessing resets failed or skipped runs without a lease |
| ExtractionService.ExtractionRunService.ApplyToReceipts | apps/api/src/memory-processing/candidate-applier.ts:30-112 | a candidate with a receipt is answered from it; otherwise it is applied once and gets one |
| ExtractionService.ExtractionRunService.ApplyCandidates | apps/api/src/memory-processing/extraction-outcome-writer.ts:93-128 | the loop applies, defers or rejects each candidate in order |
| ExtractionService.ExtractionRunService.PersistOutcome | apps/api/src/memory-processing/extraction-outcome-writer.ts:74-179 | the commit step: fenced by token and permission, rolled back on any exception |
| ExtractionService.ExtractionRunService.PersistFailure | apps/api/src/memory-processing/extraction-outcome-writer.ts:206-225 | the failure write is a compare-and-set on the token |
| ExtractionService.ExtractionRunService.RecordTool | apps/api/src/memory-processing/extraction-reconciliation.service.ts:51-103 | a tool receipt is recorded once per call |
| ExtractionService.ExtractionRunService.Complete | apps/api/src/memory-processing/extraction-reconciliation.service.ts:126-287 | reconciling a pending candidate is the complete step |
| ExtractionOutcomes.ClaimIff | apps/api/src/memory-processing/extraction-run.service.ts:131-155 | over every run, a claim takes effect exactly on a run that is new, failed, or held under a lease that has passed |
| ExtractionOutcomes.LeaseCoversDeadline | apps/api/src/memory-processing/extraction-run.service.ts:136-154 | until the time a worker asked for and 5000 milliseconds more have passed, no other claim takes effect unless it wrote itself, and its token stays |
| ExtractionOutcomes.TakeoverIff | apps/api/src/memory-processing/extraction-run.service.ts:136-154 | from a worker that writes nothing the run can be taken over exactly once the clock is past that instant |
| ExtractionOutcomes.AttemptsCount | apps/api/src/memory-processing/extraction-run.service.ts:147-153 | the attempts are the number of claims that took effect |
| ExtractionOutcomes.SkippedWaits | apps/api/src/memory-processing/extraction-run.service.ts:98-109 | a skipped run stays so, claims or not, until it is retried or reprocessed |
| ExtractionOutcomes.ReopenedIsClaimed | apps/api/src/memory-processing/extraction-run.service.ts:46-109 | after a retry or a reprocess that takes effect the next claim succeeds |
| ExtractionOutcomes.FailureEnds | apps/api/src/memory-processing/extraction-outcome-writer.ts:182-225 | a worker's own failure ends its claim, as skipped for lack of permission and as failed otherwise |
| ExtractionOutcomes.CommitIff | apps/api/src/memory-processing/extraction-outcome-writer.ts:74-179 | a commit takes effect exactly when the worker holds the run, was not aborted, used the processors still selected, has their keys, and no intake throws |
| ExtractionOutcomes.CommitReports | apps/api/src/memory-processing/extraction-outcome-writer.ts:93-179 | what a commit stores and reports of each candidate, in the provider's order |
| ExtractionOutcomes.ToolsRecorded | apps/api/src/memory-processing/extraction-reconciliation.service.ts:51-103 | what counts as searched, or as evidence, is exactly what the owner's tools recorded before |
| ExtractionOutcomes.SettlingReports | apps/api/src/memory-processing/extraction-reconciliation.service.ts:126-287 | a candidate is settled only after searching memories and suggestions, with the records its tools changed, and one outcome speaks of it |
| ExtractionOutcomes.ReconciliationAnswers | apps/api/src/memory-processing/extraction-reconciliation.service.ts:126-214 | what reconciliation answers: the outcome on record or just recorded, not found exactly when nothing is on record or pending, clarification for a deferral or a candidate not eligible |
| ExtractionRuns.StepKeepsLease | apps/api/src/memory-processing/extraction-run.service.ts:136-154 | running exactly when a token and a lease are set; final exactly when one outcome is committed |
| ExtractionRuns.AtMostOneCommit | apps/api/src/memory-processing/extraction-outcome-writer.ts:145-156 | over every interleaving at most one outcome is committed, and it stays |
| ExtractionRuns.ReplacedTokenStaysInert | apps/api/src/memory-processing/extraction-outcome-writer.ts:206-224 | once a worker's token is replaced, none of its writes ever changes anything |
| ExtractionRuns.CommitStatusIff | apps/api/src/memory-processing/extraction-outcome-writer.ts:129-132 | complete exactly when the provider finished, rejected nothing and used no id twice |
| ExtractionRuns.ScreenRejectsIff | apps/api/src/memory-processing/extraction-provider.service.ts:151-164 | rejected exactly when the provider says so or the id was used before |
| ExtractionRuns.CandidateConservation | apps/api/src/memory-processing/extraction-outcome-writer.ts:93-128 | non-rejected candidates are pending or have a receipt, never both; records come once each, never from rejected or retraction candidates |
| ExtractionRuns.CompleteConserves | apps/api/src/memory-processing/extraction-reconciliation.service.ts:215-276 | reconciling moves one id from pending to receipts |
| ExtractionRuns.ReceiptIsFinal | apps/api/src/memory-processing/candidate-applier.ts:40-45 | over every run, a receipt never changes and nothing is created from its candidate again |
| Judge.FindRecentCandidatePairs | apps/api/src/consolidation/consolidation-candidates.service.ts:146-171 | the pair finder fills the keyed map, sorts and cuts it |
| Judge.PairsSound | apps/api/src/consolidation/consolidation-candidates.service.ts:151-170 | best score first, each unordered pair once, each found by a query, within the limit |
| Judge.DiscoveredExactly | apps/api/src/consolidation/consolidation-candidates.service.ts:153-166 | no pair that a query finds is lost from the map |
| Judge.BestKeptIff | apps/api/src/consolidation/consolidation-candidates.service.ts:153-166 | for any queries, the best score of a pair of ids is kept exactly when no pair of theirs put before the last lexical one beats all put since |
| Judge.SemanticKeepsBest | apps/api/src/consolidation/consolidation-candidates.service.ts:158-165 | without a lexical pair of the two ids the best score is always kept |
| Judge.LexicalReplacesBetter | apps/api/src/consolidation/consolidation-candidates.service.ts:154-156 | the smallest failing input: a later lexical pair replaces a better semantic one |
| Judge.ExclusionReason | apps/api/src/consolidation/consolidation-llm.service.ts:75-98 | no reason exactly for active, approved, unexpired memories within the sensitivity limit and without secrets |
| Judge.RunBatches | apps/api/src/consolidation/consolidation-llm.service.ts:143-175 | batches of thirty up to the first that throws; all of their decisions, in order, as `DecisionsExactly` lists them |
| Judge.DecisionsExactly | apps/api/src/consolidation/consolidation-llm.service.ts:143-175 | the decisions are those of exactly the batches at 0, 30, 60 and so on below what was judged: as members, as a count, and in the order of the batches |
| Judge.UsableIff | apps/api/src/consolidation/consolidation-llm.service.ts:180-192 | a decision is used exactly when it names a selected pair that no other decision names |
| Judge.JudgedDecisionsCount | apps/api/src/consolidation/consolidation-llm.service.ts:143-211 | every decision of every answered batch that names a selected pair alone is proposed or clashes with a proposal |
| Judge.CountDecisions | apps/api/src/consolidation/consolidation-llm.service.ts:180-186 | how many decisions name each pair |
| Judge.PickCandidates | apps/api/src/consolidation/consolidation-llm.service.ts:178-228 | the decision loop yields the greedy picks |
| Judge.ProposalsSound | apps/api/src/consolidation/consolidation-llm.service.ts:187-211 | for arbitrary output: distinct targets, no target is a survivor, one decision per proposal, and every usable decision is proposed or clashes |
| Judge.Judge | apps/api/src/consolidation/consolidation-llm.service.ts:47-257 | candidates, counts, status and completed sources of a judgment, and nothing when it is blocked or fails |
| Judge.JudgingConserves | apps/api/src/consolidation/consolidation-llm.service.ts:112-121 | at most a thousand eligible pairs are selected, from the front; deferred pairs are among the skipped |
| Judge.CompletedMeansAllJudged | apps/api/src/consolidation/consolidation-llm.service.ts:112-121 | a completed run judged every eligible pair |
| Judge.CompletedExactly | apps/api/src/consolidation/consolidation-llm.service.ts:231-246 | a source is completed exactly when it is permitted and all its pairs were judged |
| Judge.ExcludedExactly | apps/api/src/consolidation/consolidation-llm.service.ts:75-98 | the sources reported as skipped are exactly those that may not be sent |
| Duplicates.FindDuplicateCandidates | apps/api/src/consolidation/consolidation-candidates.service.ts:94-144 | true duplicates only, newest survivor, no target twice, only the newest of a group spared |
| Duplicates.ProposeGroup | apps/api/src/consolidation/consolidation-candidates.service.ts:101-140 | one group: all but the newest are proposed unless seen before |
| Duplicates.ExpiredExactly | apps/api/src/consolidation/consolidation-candidates.service.ts:81-92 | exactly the memories past their expiry, without a survivor |
| Dedupe.DedupeCandidates | apps/api/src/consolidation/dedupe-candidates.ts:4-41 | the filter keeps the greedy selection |
| Dedupe.NoArchivedSurvivor | apps/api/src/consolidation/dedupe-candidates.ts:11-41 | kept in order, distinct targets, no survivor among other targets or expired memories, a conflict for every dropped one |
| Dedupe.SurvivorsSurviveIff | apps/api/src/consolidation/dedupe-candidates.ts:18-38 | survivors survive exactly when the filter reaches no proposal in the list that names its own target, neither taken nor expired nor relied on, as survivor |
| Dedupe.DistinguishedSurvive | apps/api/src/consolidation/dedupe-candidates.ts:18-38 | they always survive when every proposal in the list distinguishes target and survivor |
| Dedupe.UnobstructedSelfFails | apps/api/src/consolidation/dedupe-candidates.ts:18-38 | they do not when one names its own unexpired target and no earlier target stands in its way |
| Dedupe.SelfCanonicalArchived | apps/api/src/consolidation/dedupe-candidates.ts:18-38 | the smallest failing list |
| Producers.JudgedAreGenuine | apps/api/src/consolidation/consolidation-llm.service.ts:187-228 | judged proposals meet what the archive steps assume, whatever the provider answers |
| ArchiveService.ArchiveWriter.CandidateStillValid | apps/api/src/consolidation/consolidation-writer.service.ts:117-172 | target and survivor at their versions, survivor approved and unexpired, processors still selected |
| ArchiveService.ArchiveWriter.ArchiveCandidate | apps/api/src/consolidation/consolidation-writer.service.ts:177-258 | automatic archiving is the archive step |
| ArchiveService.ArchiveWriter.CreateArchiveSuggestion | apps/api/src/consolidation/consolidation-writer.service.ts:44-115 | a suggestion is created for a valid candidate whose target has none queued |
| ArchiveService.ArchiveWriter.ClaimSuggestion | apps/api/src/memory-suggestions/claim-suggestion.ts:7-23 | the claim succeeds once, from the queue |
| ArchiveService.ArchiveWriter.ApplyArchiveSuggestion | apps/api/src/memory-suggestions/archive-suggestion-applier.ts:58-207 | a reviewed archive commits with its claim or rolls back |
| ArchiveService.ArchiveWriter.RejectSuggestion | apps/api/src/memory-suggestions/suggestion-review.service.ts:230-241 | rejecting is the reject step |
| ArchiveService.ArchiveWriter.RunCandidates | apps/api/src/consolidation/consolidation-orchestrator.service.ts:129-175 | the loop archives or suggests each candidate by mode |
| ArchiveService.RunQueuesOnce | apps/api/src/consolidation/consolidation-orchestrator.service.ts:121-175 | a run that starts from the queued targets leaves every target with at most one queued suggestion |
| ArchiveService.RunActs | apps/api/src/consolidation/consolidation-orchestrator.service.ts:129-175 | what a run does with its n-th candidate: archive, suggest or leave alone, by mode and by what still holds |
| ArchiveService.RunLeavesSurvivors | apps/api/src/consolidation/consolidation-orchestrator.service.ts:103-175 | after a whole run every archived memory's survivor is the same live row as before |
| ArchiveRuns.ArchivesJustified | apps/api/src/consolidation/consolidation-writer.service.ts:117-208 | every archive happens to an active row while a different survivor is live at its recorded version, and leaves that survivor alone |
| ArchiveRuns.StaleNeverApplies | apps/api/src/memory-suggestions/archive-suggestion-applier.ts:82-111 | a suggestion whose target or survivor changed can never take effect again |
| ArchiveRuns.StaleCandidateNeverApplies | apps/api/src/consolidation/consolidation-writer.service.ts:128-149 | nor can a candidate a run still holds |
| ArchiveRuns.AppliedAtMostOnce | apps/api/src/memory-suggestions/claim-suggestion.ts:15-22 | each suggestion takes effect at most once, exactly when it is applied |
| ArchiveRuns.DuplicateClassNeverEmptied | apps/api/src/consolidation/consolidation-writer.service.ts:177-208 | however long duplicates are archived, no live text disappears |
| ArchiveRuns.SurvivorChain | apps/api/src/consolidation/consolidation-writer.service.ts:177-208 | whatever is archived for whatever reason, following survivors through the log leads from each live memory to one that is live now or expired |
| ArchiveOutcomes.AutoArchiveIff | apps/api/src/consolidation/consolidation-writer.service.ts:177-258 | an automatic archive takes effect exactly when everything its proposal rests on holds; then the target alone changes and it is logged once |
| ArchiveOutcomes.SuggestIff | apps/api/src/consolidation/consolidation-writer.service.ts:44-115 | a proposal is queued exactly when its target has none queued and everything it rests on holds |
| ArchiveOutcomes.SuggestionOrigin | apps/api/src/consolidation/consolidation-writer.service.ts:76-113 | every suggestion goes back to the one step that queued it, and still proposes what that candidate did |
| ArchiveOutcomes.ApplyIff | apps/api/src/memory-suggestions/archive-suggestion-applier.ts:58-207 | applying takes effect exactly when the suggestion is queued and target and survivor are as recorded |
| ArchiveOutcomes.RejectedForGood | apps/api/src/memory-suggestions/suggestion-review.service.ts:230-241 | rejecting takes effect exactly on a queued suggestion, changes nothing else, and what was rejected never takes effect |
| Inspection.UpdateMemory | apps/api/src/memories/memory-update.ts:12-58 | the update sets exactly the requested fields and the relevance stamp when it must |
| Inspection.StampTracksContent | apps/api/src/memories/memory-update.ts:60-70 | an unchanged relevance stamp means unchanged content, source and review state, and no reactivation |
| Inspection.ConsolidationMarks.MarkMemoriesConsolidated | apps/api/src/consolidation/consolidation.repository.ts:114-128 | the listed rows, and by `MarkedLeavesDiscovery` no others, get the consolidation mark and keep their version |
| Inspection.ConsolidationMarks.MarkInspected | apps/api/src/consolidation/consolidation-orchestrator.service.ts:193-197 | completed sources are marked unless they became relevant anew |
| InspectionRuns.MarkAllEffect | apps/api/src/consolidation/consolidation-orchestrator.service.ts:193-197 | a mark comes from a completed source with the row's own relevance stamp |
| InspectionRuns.NoLostInspection | apps/api/src/consolidation/consolidation.repository.ts:17-33 | a memory discovery leaves out was read with its current content by a run that judged all its pairs |
| InspectionRuns.FinishedLeavesDiscovery | apps/api/src/consolidation/consolidation-orchestrator.service.ts:183-198 | a completed, unchanged source leaves discovery exactly when its content is not younger than the run |
| InspectionRuns.NoLostConsolidation | apps/api/src/consolidation/consolidation.repository.ts:17-33 | a recent memory the first clause of discovery leaves out was named in a mark of a run that started no earlier than its relevance stamp, and with its present content |
| InspectionRuns.NoLostExpiry | apps/api/src/consolidation/consolidation.repository.ts:35-53 | an expired memory the expiry query leaves out was named in a mark of a run that started after it had expired |
| InspectionRuns.MarkedLeavesDiscovery | apps/api/src/consolidation/consolidation.repository.ts:114-128 | a mark takes a named memory out of the first clause exactly when its run is not older than the stamp, and leaves every memory it does not name alone |
| InspectionRuns.UpdateArrives | apps/api/src/memories/memory-update.ts:12-58 | every requested value arrives in its field and the others stay, until the next update of the memory |
| OAuthStatements.AtMostOneMint | apps/api/src/oauth/oauth-provider.service.ts:155-218 | statement by statement, at most one token pair is minted directly from a code |
| OAuthRaces.RevocationKillsIff | apps/api/src/oauth/oauth-tokens.service.ts:187-238 | a search-then-revoke that runs to its end leaves its code's or client's tokens dead exactly when nothing came of any request that could mint while it ran; for a replayed code that is for good |
| OAuthRaces.DeadWhileShut | apps/api/src/oauth/oauth-provider.service.ts:164-218 | dead tokens stay dead, and no new ones come, while the code is consumed or the client blocked or deleted |
| OAuthRaces.MintsInTheEnd | apps/api/src/oauth/oauth-provider.service.ts:199-278 | a request that has passed its check mints a live pair by its own remaining statements, whatever was revoked or blocked meanwhile |
| OAuthRaces.RefreshEscapesReplay | apps/api/src/oauth/oauth-provider.service.ts:266-278 | a run of thirteen statements in which a refreshed pair survives the replay of its code |
| OAuthRaces.BlockingKillsIff | apps/api/src/clients/clients.service.ts:204-226 | statement by statement, blocking cuts a client off exactly when no exchange or refresh of it is between check and mint; the tokens from before are dead for ever |
| OAuthRaces.OneUnspentToken | apps/api/src/oauth/oauth-provider.service.ts:229-278 | as long as no two refreshes hold the same token of a code as verified, the code has at most one unspent refresh token |
| OAuthRaces.OverlapSplits | apps/api/src/oauth/oauth-tokens.service.ts:180-185 | two that do can both run on, and leave two unspent refresh tokens |
| ConsentDecisions.DecidedOnceUnlessOverlap | apps/api/src/oauth/oauth-grants.service.ts:96-182 | statement by statement, a request no two calls hold as open is decided at most once and has at most one code |
| ConsentDecisions.OverlapDecidesTwice | apps/api/src/oauth/oauth-grants.service.ts:100-140 | two approvals that hold it can both commit, and the request has two codes |
| OAuthService.OAuthProvider.ExchangeAuthorizationCode | apps/api/src/oauth/oauth-provider.service.ts:148-221 | the code exchange is its step, replay included |
| OAuthService.OAuthProvider.ExchangeRefreshToken | apps/api/src/oauth/oauth-provider.service.ts:223-281 | the refresh exchange is its step, reuse included |
| OAuthService.OAuthProvider.RevokeToken | apps/api/src/oauth/oauth-provider.service.ts:305-334 | the revocation endpoint is its step |
| OAuthService.OAuthProvider.IssueTokenPair | apps/api/src/oauth/oauth-tokens.service.ts:65-119 | both tokens are added under the grant |
| OAuthService.OAuthProvider.RevokeTokensForClient | apps/api/src/oauth/oauth-tokens.service.ts:206-238 | all tokens of a client are revoked, and how many were not before |
| OAuthService.OAuthProvider.RevokeTokensForSourceCode | apps/api/src/oauth/oauth-tokens.service.ts:187-204 | all tokens of a code are revoked, and how many were not before |
| OAuthService.OAuthProvider.Authorize | apps/api/src/oauth/oauth-provider.service.ts:94-130 | an authorization request keeps the resolved scopes and resource, which are those of `RequestOrigin`, or is refused |
| OAuthService.OAuthProvider.DenyRequest | apps/api/src/oauth/oauth-grants.service.ts:175-207 | denying decides a pending request and nothing else |
| OAuthService.OAuthProvider.ApproveRequest | apps/api/src/oauth/oauth-grants.service.ts:96-165 | consent creates or approves the client, grants the operations and creates the code, or does nothing |
| OAuthService.OAuthProvider.EnsureGrantPolicy | apps/api/src/oauth/oauth-grants.service.ts:305-376 | a missing policy is created; an existing one is rewritten only when the merged list has another length |
| OAuthService.OAuthProvider.SetPolicy | apps/api/src/policies/policies.service.ts:190-229 | the owner's list of operations is stored as received |
| OAuthService.OAuthProvider.UpdateClient | apps/api/src/clients/clients.service.ts:194-258 | a change of trust, and the cut-off when a connector becomes blocked |
| OAuthService.OAuthProvider.DeleteClient | apps/api/src/clients/clients.service.ts:260-303 | deleting a client removes its policy, codes and tokens |
| OAuthRuns.ConsentIff | apps/api/src/oauth/oauth-grants.service.ts:96-142 | consent creates a code exactly for a pending request whose client is not blocked; the code carries what was requested, and the stored policy covers it exactly under the condition of ConsentCoversIff |
| OAuthRuns.DecidedOnce | apps/api/src/oauth/oauth-grants.service.ts:209-241 | with whole calls as steps, a decided request can never be decided again |
| OAuthRuns.RefreshExchangeIff | apps/api/src/oauth/oauth-provider.service.ts:229-278 | a refresh token is exchanged exactly under its conditions, then spent, for exactly the scopes asked for |
| OAuthRuns.ConsumedIsRefused | apps/api/src/oauth/oauth-provider.service.ts:164-172 | an exchanged code is refused for ever |
| OAuthRuns.ReplayKillsLineage | apps/api/src/oauth/oauth-provider.service.ts:164-172 | after a replay no token of the code's lineage is ever live |
| OAuthRuns.RefreshLineage | apps/api/src/oauth/oauth-provider.service.ts:240-278 | at most one unspent refresh token per code; scopes within the code's, same resource |
| OAuthRuns.SpentRefreshKillsGrant | apps/api/src/oauth/oauth-provider.service.ts:231-238 | presenting a spent refresh token kills all the client's tokens for good |
| OAuthRuns.BlockingKillsTokens | apps/api/src/clients/clients.service.ts:213-226 | blocking kills the tokens issued before, and approving again revives none |
| OAuthRuns.RevocationEndsGrant | apps/api/src/oauth/oauth-provider.service.ts:318-334 | deletion and revocation are as final |
| OAuthRuns.ConsentCoversIff | apps/api/src/oauth/oauth-grants.service.ts:305-346 | after consent an existing policy covers the scopes exactly when it did before or the merged list has another length, that is, unless it repeats as many entries as it misses operations; consent takes none away and adds only those of the scopes |
| OAuthRuns.ConsentCoversDistinct | apps/api/src/oauth/oauth-grants.service.ts:324-330 | a missing policy, and one without repetitions, always covers the scopes after consent |
| OAuthRuns.ConsentMissesSuggest | apps/api/src/oauth/oauth-grants.service.ts:324-330 | a policy that lists READ twice is not rewritten when memory.suggest is granted |
| OAuthRuns.MergedOperations | apps/api/src/oauth/oauth-permissions.ts:29-47 | the merged list has each operation of policy and scopes once and no other |
| OAuthOutcomes.AuthorizeIff | apps/api/src/oauth/oauth-provider.service.ts:94-130 | an authorization request is stored exactly when its scopes are supported, its resource is the served one or none, and its registration exists; otherwise it is refused, for the first of these reasons, and nothing changes |
| OAuthOutcomes.RequestOrigin | apps/api/src/oauth/oauth-provider.service.ts:94-130 | every stored request goes back to the one call that asked for it: its scopes each once, redirect URI, resource and expiry |
| OAuthOutcomes.CodeOrigin | apps/api/src/oauth/oauth-grants.service.ts:96-165 | every code goes back to one consent in time and through it to one authorization request of the same registration, and carries what that asked for |
| OAuthOutcomes.TokenOrigin | apps/api/src/oauth/oauth-tokens.service.ts:65-119 | every token goes back to the exchange that issued it, for the lifetime of its kind, with the scopes of the code or those asked for of the old token |
| OAuthOutcomes.NothingUnasked | apps/api/src/oauth/oauth-provider.service.ts:94-221 | no token allows a scope that one authorization request of its registration did not ask for |
| OAuthOutcomes.IssuedAnswers | apps/api/src/oauth/oauth-tokens.service.ts:65-119 | a successful exchange answers with the two tokens it stored and their scopes |
| OAuthOutcomes.WorksIff | apps/api/src/oauth/oauth-tokens.service.ts:128-140 | an access token works exactly while unrevoked, unexpired and approved at both ends |
| OAuthOutcomes.CodeRefusals | apps/api/src/oauth/oauth-provider.service.ts:148-197 | which error a refused code exchange gets |
| OAuthOutcomes.RefreshRefusals | apps/api/src/oauth/oauth-provider.service.ts:223-264 | which error a refused refresh gets |
| OAuthOutcomes.DeniedForGood | apps/api/src/oauth/oauth-grants.service.ts:175-207 | a denied authorization request never has a code |
| OAuthOutcomes.BlockedNeverServed | apps/api/src/clients/clients.service.ts:194-258 | while a client is blocked nothing is issued to it, no token of it is live and no consent for it takes effect |
| OAuthOutcomes.TrustIsStored | apps/api/src/clients/clients.service.ts:194-258 | a change of trust is stored as asked, for that client alone |
| OAuthOutcomes.DeletedForGood | apps/api/src/clients/clients.service.ts:260-303 | once deleted, no policy, code or token of the client exists at any later moment |
| OAuthOutcomes.PermissionOrigin | apps/api/src/oauth/oauth-grants.service.ts:305-376 | every operation of a policy goes back to the owner's own list or to a consent to a scope that stands for it |
| OAuthOutcomes.ListedStays | apps/api/src/policies/policies.service.ts:190-229 | what the owner lists is stored as it is, and no consent takes any of it away |
| McpServer.McpHttpServer.IsRateLimited | packages/mcp/src/http-server.ts:144-157 | one check of a fixed window |
| McpServer.McpHttpServer.SweepTables | packages/mcp/src/http-server.ts:123-142 | a sweep removes exactly the expired rows |
| McpServer.McpHttpServer.HandleMcpRequest | packages/mcp/src/http-server.ts:159-312 | status and tables after a request |
| McpServer.ServerFollowsTrace | packages/mcp/src/http-server.ts:123-312 | the tables after any requests and sweeps are those of a trace of checks, lookups, openings, closings and sweeps, so that the trace theorems hold of the server |
| McpServer.StatusFollowsAnswers | packages/mcp/src/http-server.ts:181-246 | a request is refused as one too many, or as not found, exactly when the last event of its trace answers so |
| McpServer.StatusesSweepTransparent | packages/mcp/src/http-server.ts:123-142 | no status of any request depends on when, or whether, the sweep timer fires |
| McpServer.RateBound | packages/mcp/src/http-server.ts:144-157 | in any closed interval of one window length fewer than twice the maximum are admitted |
| McpServer.RateBoundTight | packages/mcp/src/http-server.ts:148-156 | for every maximum there is a trace that reaches the bound |
| McpServer.SweepTransparent | packages/mcp/src/http-server.ts:123-142 | any sweep schedule gives the answers of a server that never sweeps |
| McpServer.ForeignSessionsHidden | packages/mcp/src/http-server.ts:234-246 | a foreign session is told apart from none by neither answer nor state |
| McpServer.RequestTouchesOwnSession | packages/mcp/src/http-server.ts:231-312 | a request changes, removes or adds only a session of its own token, and only when it is handled |
| McpServer.BoundsByKind | packages/mcp/src/http-server.ts:144-157 | addresses are bounded by the maximum before authentication and tokens by that for requests, and both bounds are reached |
| McpServer.ServedIff | packages/mcp/src/http-server.ts:231-250 | a lookup is served exactly when the session was opened, or last served, under the same token hash within its time to live, and neither closed nor opened anew since |
| McpServer.SweepCleans | packages/mcp/src/http-server.ts:123-142 | after a sweep nothing that has run out is left, and all else is as it was |
| McpServer.StatusesInOrder | packages/mcp/src/http-server.ts:159-312 | which status a request gets, for each in which cases exactly, and what it opens |
| McpServer.SessionOrigin | packages/mcp/src/http-server.ts:251-312 | every session goes back to an initialize request past the gates whose token was verified |
| Locks.WorkIncreases | apps/api/src/common/db-locks.ts:9-20 | every transaction locks in the common order, whatever ids it is given |
| Locks.WorkLocks | apps/api/src/common/db-locks.ts:4-20 | each transaction locks exactly the rows it names |
| Locks.NoDeadlock | apps/api/src/common/db-locks.ts:4-20 | the wait-for graph of every reachable state is acyclic |
| Locks.AlwaysProgress | apps/api/src/common/db-locks.ts:8-20 | some unfinished transaction can always proceed |
| Locks.AllCanFinish | apps/api/src/common/db-locks.ts:8-20 | from every reachable state all transactions can commit without an abort |
| ImportNames.UniqueImportName | apps/api/src/data-control/import-mappers.ts:84-96 | the first free numbered name, found within one try more than there are claimed names |
| ImportNames.NumberedInjective | apps/api/src/data-control/import-mappers.ts:85-91 | differently numbered names differ in lower case |
| ImportNames.NumberedReads | apps/api/src/data-control/import-mappers.ts:84-96 | the numbered names, with the number of the try in decimal from the second on |
| Import.RefinePolicies | packages/shared/src/data-control.ts:69-83 | no issue exactly for exports whose policies name distinct exported clients |
| Import.ImportClients | apps/api/src/data-control/vault-import-writer.service.ts:52-82 | one client each, names distinct in lower case from one another and the existing ones, and the id map |
| Import.RemapInjective | apps/api/src/data-control/vault-import-writer.service.ts:63-81 | different exported ids lead to different new clients |
| Import.ClientCountIff | apps/api/src/data-control/vault-import.service.ts:167-175 | the reported count is right exactly when the exported ids are distinct |
| Import.ImportPolicies | apps/api/src/data-control/vault-import-writer.service.ts:84-120 | every policy on the mapped client, or an exception when one is missing |
| Import.ImportAccess | apps/api/src/data-control/vault-import.service.ts:101-110 | a validated export succeeds and every policy lands on a distinct new client made for the one it named |
| Import.ImportMemories | apps/api/src/data-control/vault-import-writer.service.ts:122-221 | every exported memory is restored or suggested with its content, deadline and categories, by mode and status |
| Import.EveryMemoryImported | apps/api/src/data-control/vault-import-writer.service.ts:122-221 | every exported memory turns up exactly once, as a row or as a suggestion, in order |
| Import.NothingResurrected | apps/api/src/data-control/import-mappers.ts:50-65 | every restored memory keeps its archived or expired state, its categories and its imported source; review restores archived ones only |
| Import.SuggestionsFaithful | apps/api/src/data-control/vault-import-writer.service.ts:122-221 | every suggestion is a whole exported memory, deadline included, never an archived one, and only an import for review makes any |
| Import.EveryMemoryArrives | apps/api/src/data-control/vault-import-writer.service.ts:122-221 | each exported memory arrives in full: as a row when archived or imported directly, and as a suggestion otherwise |
| Import.ExportCategoryDefinitions | apps/api/src/data-control/import-mappers.ts:24-48 | one definition for every key the export uses |

## Left out

- Controllers, guards, DTOs, HTML pages and web code; Prisma, Postgres, Redis and queue internals.
- Provider calls, prompts, embeddings, term extraction and score computation: their results are parameters.
- Retrieval ranking and the vector queries: which hits and pairs they return is arbitrary.
- Secret detection, URL and redirect validation, PKCE, consent nonces and hashing: decisions and identities only.
- Validation.ValidateCandidate: whether a text looks like a secret and whether an expiry parses as a full timestamp are
  inputs; reasons are left out.
- McpServer.McpHttpServer.HandleMcpRequest: whether the transport accepts a request is an input and its own status
  is not modelled; it handles one request at a time, and requests that interleave, with sweeps
  between their statements, are the event traces of `RateBound`, `SweepTransparent` and `ServedIff`.
- Judge.Judge: takes three clock readings for the exclusion checks, one per phase, where the code reads the clock
  for every memory.
- ExtractionService.ExtractionRunService.ApplyToReceipts: the intake rules that turn a candidate into a record or a
  suggestion are left out; their outcome is a parameter of each application.
- The instruction strings of a bundle, audit subjects and metadata other than memory ids, display timestamps such
  as approvedAt and fulfilledAt, and the diagnostics of a judgment.
- The reasons a judgment reports and its counts per exclusion reason; its overall counts and status are modelled.
- The retry path that reloads the sources of an earlier consolidation job decides only which rows a run reads, and
  those are arbitrary current rows in `Inspection`.
- Suggestions that create memories, and suggestion intake: only archive suggestions have a protocol here.
- OAuthRuns.DecidedOnce: calls do not overlap; `ConsentDecisions` has the version for overlapping calls.
- Interleaving inside a client update: it is one step, with the reading of the row before its transaction.
- Dynamic registration beyond its initial status, and the cap on pending registrations.
- Several owners: all rows belong to one; a registration therefore has at most one client.
- Locks.WorkIncreases: covers the explicit row locks; the implicit locks of single-row updates and foreign
  keys are left out.
- The title made from a category key, the order of the category list, and policies whose categories do not exist.
- Case mapping beyond the ASCII letters.
- Simple CRUD, pagination, overview figures, chat and voice.
