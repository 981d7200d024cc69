/**
 * The disclosure services as the source writes them: statements over mutable rows inside a
 * transaction, with a rollback when the transaction throws. Each method is proved to be the
 * corresponding transaction of module Disclosure.
 */
module DisclosureService {
  import opened Common
  import opened Bundles
  import opened Permissions
  import opened Disclosure

  lemma EligibleNext(hits: seq<Hit>, i: nat, context: Context)
    requires i < |hits|
    ensures Eligible(hits[i..], context) ==
            (if hits[i].id in context.memories && hits[i].id in context.allowed
             then [CandidateOf(hits[i].id, context.memories[hits[i].id], hits[i].score)] + Eligible(hits[i + 1..], context)
             else Eligible(hits[i + 1..], context))
  {
  }

  lemma NoneEligible(hits: seq<Hit>, context: Context)
    requires hits == []
    ensures Eligible(hits, context) == []
  {
  }

  class DisclosureReviewService {
    var memories: map<nat, Memory>
    var policies: map<nat, Policy>
    var clients: map<nat, Client>
    var requests: map<nat, Request>
    var itemRows: seq<ItemRow>
    var events: seq<Event>
    var usedIds: set<nat>
    var now: int

    ghost function Abs(): Vault
      reads this
    {
      Vault(memories, policies, clients, requests, itemRows, events, usedIds, now)
    }

    constructor (startedAt: int)
      ensures Abs() == Vault(map[], map[], map[], map[], [], [], {}, startedAt)
    {
      memories, policies, clients, requests := map[], map[], map[], map[];
      itemRows, events, usedIds, now := [], [], {}, startedAt;
    }

    method Context(r: Request, ids: seq<nat>) returns (context: Context)
      ensures context == DisclosureContext(Abs(), r, ids)
    {
      var gate := EvaluateForClient(clients, policies, r.clientId, now);
      var found: map<nat, Memory> := map[];
      if !gate.denial.Some? && r.policyId.Some? {
        found := map id | id in ids && id in memories :: memories[id];
      }
      var bound := r.policyId.Some? && r.policyId == PolicyId(gate);
      var allowed: set<nat> := {};
      if bound && gate.denial.None? {
        allowed := set id | id in found && Permits(gate.policy.value, found[id], now);
      }
      context := Disclosure.Context(gate.client, gate.policy, found, allowed, bound, PolicyVersion(gate));
    }

    /** `policyVersion` is None when the update leaves the column alone. */
    method RequireFreshReview(id: nat, reason: Reason, policyVersion: Option<Option<int>>)
      requires id in requests
      modifies this`requests
      ensures requests == old(requests)[id := Disclosure.RequireFreshReview(old(requests)[id], reason,
                if policyVersion.Some? then policyVersion.value else old(requests)[id].policyVersion)]
    {
      var r := requests[id].(status := NeedsUserApproval, reason := Some(reason));
      if policyVersion.Some? {
        r := r.(policyVersion := policyVersion.value);
      }
      requests := requests[id := r.(approvalExpiresAt := None, snapshot := None)];
    }

    method Invalidate(id: nat, context: Context)
      requires id in requests
      modifies this`requests, this`events
      ensures requests == old(requests)[id := Invalidated(old(requests)[id], context)]
      ensures events == old(events) + [Event(RequestDenied, Some(id), [])]
    {
      RequireFreshReview(id, PolicyChanged, if context.bound then Some(context.policyVersion) else None);
      events := events + [Event(RequestDenied, Some(id), [])];
    }

    method EligibleCandidates(hits: seq<Hit>, context: Context) returns (eligible: seq<Candidate>)
      ensures eligible == Eligible(hits, context)
    {
      hide Eligible;
      eligible := [];
      for i := 0 to |hits|
        invariant Eligible(hits, context) == eligible + Eligible(hits[i..], context)
      {
        EligibleNext(hits, i, context);
        var id := hits[i].id;
        if id in context.memories && id in context.allowed {
          eligible := eligible + [CandidateOf(id, context.memories[id], hits[i].score)];
        }
      }
      NoneEligible(hits[|hits|..], context);
    }

    method PreviewDisclosure(id: nat, hits: seq<Hit>) returns (preview: Preview)
      requires id in requests
      modifies this`requests, this`events
      ensures Abs() == AfterPreview(old(Abs()), id, hits)
      ensures preview == PreviewOf(old(Abs()), id, hits)
    {
      hide Eligible, Compiled, SnapshotIsCurrent, DisclosureContext;
      var request := requests[id];
      var isApproved := request.status == Approved;
      var previous := request.snapshot;
      var ids := if isApproved then (if Parses(previous) then ItemIds(previous.value.items) else []) else HitIds(hits);
      var context := Context(request, ids);
      if request.status == NeedsUserApproval && request.policyId.Some? &&
         (!context.bound || request.policyVersion != context.policyVersion) {
        Invalidate(id, context);
        request := requests[id];
      }
      var eligible := EligibleCandidates(hits, context);
      var items, _ := Compile(eligible, request.tokenBudget);
      var snapshot := Snapshot(
        items,
        map m | m in CandidateIds(eligible) && m in context.memories :: context.memories[m].updatedAt,
        if context.policy.Some? then Some(context.policy.value.id) else None,
        context.policyVersion,
        RevisionOf(request.clientId, context.client));
      if isApproved && Parses(previous) {
        var current := SnapshotIsCurrent(now, request, previous.value, context);
        snapshot := snapshot.(items := if current then previous.value.items else [],
                              versions := previous.value.versions);
      }
      preview := Preview.Preview(
        snapshot, Revision(id, snapshot), snapshot.items,
        request.status == NeedsUserApproval && context.bound && snapshot.items != [],
        isApproved && (request.approvalExpiresAt.None? || request.approvalExpiresAt.value <= now));
      if requests == old(requests) {
        assert requests == requests[id := requests[id]];
      }
      assert old(events) + [] == old(events);
    }

    method ShowPreview(id: nat, hits: seq<Hit>) returns (reply: Reply)
      modifies this`requests, this`events
      ensures (Abs(), reply) == PreviewStep(old(Abs()), id, hits)
    {
      if id !in requests {
        return NotFound;
      }
      var preview := PreviewDisclosure(id, hits);
      reply := Shown(preview);
    }

    method DecideDeny(id: nat) returns (reply: Reply)
      modifies this`requests, this`events
      ensures (Abs(), reply) == DenyStep(old(Abs()), id)
    {
      if id !in requests {
        return NotFound;
      }
      if requests[id].status != NeedsUserApproval {
        return Conflict;
      }
      requests := requests[id := requests[id].(status := Denied, snapshot := None)];
      events := events + [Event(RequestDenied, Some(id), [])];
      reply := Done;
    }

    /** A conflict rolls back whatever the inner preview invalidated. */
    method DecideApprove(id: nat, revision: Revision, memoryIds: seq<nat>, hits: seq<Hit>) returns (reply: Reply)
      modifies this`requests, this`events
      ensures (Abs(), reply) == ApproveStep(old(Abs()), id, revision, memoryIds, hits)
    {
      hide PreviewSnapshot, PreviewContext, PreviewedRow, PreviewEvents, Selection;
      if id !in requests {
        return NotFound;
      }
      if requests[id].status != NeedsUserApproval {
        return Conflict;
      }
      var savedRequests, savedEvents := requests, events;
      var preview := PreviewDisclosure(id, hits);
      if !preview.canApprove || preview.revision != revision {
        requests, events := savedRequests, savedEvents;
        return Conflict;
      }
      var ids := ToSet(memoryIds);
      var items := Selection(preview.snapshot.items, ids);
      if |items| != |ids| {
        requests, events := savedRequests, savedEvents;
        return Conflict;
      }
      requests := requests[id := requests[id].(
        status := Approved,
        approvalExpiresAt := Some(now + APPROVAL_TTL_MS),
        snapshot := Some(Granted(preview.snapshot, ids)))];
      events := events + [Event(RequestApproved, Some(id), memoryIds)];
      assert requests == savedRequests[id := requests[id]];
      reply := Done;
    }

    method Result(clientId: nat, id: nat) returns (reply: Reply)
      modifies this`requests, this`events, this`itemRows
      ensures (Abs(), reply) == RetrieveStep(old(Abs()), clientId, id)
    {
      hide SnapshotIsCurrent, DisclosureContext, Total;
      if id !in requests || requests[id].clientId != clientId {
        return NotFound;
      }
      var request := requests[id];
      if request.status != Approved {
        return Reply.Pending(request.status, request.reason);
      }
      if !Parses(request.snapshot) || request.approvalExpiresAt.None? || request.approvalExpiresAt.value <= now {
        RequireFreshReview(id, ConfirmationRequired, None);
        return Reply.Pending(NeedsUserApproval, Some(ConfirmationRequired));
      }
      var snapshot := request.snapshot.value;
      var context := Context(request, ItemIds(snapshot.items));
      if !SnapshotIsCurrent(now, request, snapshot, context) {
        Invalidate(id, context);
        return Reply.Pending(NeedsUserApproval, Some(PolicyChanged));
      }
      itemRows := itemRows + Rows(id, snapshot.items);
      events := events + [Event(MemoryDisclosure, Some(id), ItemIds(snapshot.items))];
      requests := requests[id := request.(status := Fulfilled, reason := None, snapshot := None)];
      reply := Delivered(snapshot.items, Total(snapshot.items));
    }

    method CurrentCandidates(hits: seq<Hit>) returns (cs: seq<Candidate>)
      ensures cs == Current(Abs(), hits)
    {
      cs := [];
      for i := 0 to |hits|
        invariant Current(Abs(), hits) == cs + Current(Abs(), hits[i..])
      {
        assert hits[i..][1..] == hits[i + 1..];
        if hits[i].id in memories {
          cs := cs + [CandidateOf(hits[i].id, memories[hits[i].id], hits[i].score)];
        }
      }
      assert hits[|hits|..] == [];
    }

    method PermittedCandidates(policy: Policy, cs: seq<Candidate>) returns (allowed: seq<Candidate>)
      ensures allowed == PermittedOf(Abs(), policy, cs)
    {
      hide Permits;
      allowed := [];
      for i := 0 to |cs|
        invariant PermittedOf(Abs(), policy, cs) == allowed + PermittedOf(Abs(), policy, cs[i..])
      {
        assert cs[i..][1..] == cs[i + 1..];
        if cs[i].id in memories && Permits(policy, memories[cs[i].id], now) {
          allowed := allowed + [cs[i]];
        }
      }
      assert cs[|cs|..] == [];
    }

    /** `early` is the gate read before retrieval; authority and content are read again here. */
    method CreateBundleRequest(id: nat, clientId: nat, tokenBudget: int, early: Gate, hits: seq<Hit>)
      returns (reply: Reply)
      requires id !in usedIds
      modifies this`requests, this`events, this`itemRows, this`usedIds
      ensures (Abs(), reply) == CreateStep(old(Abs()), id, clientId, tokenBudget, early, hits)
    {
      hide Compiled, PermittedOf, Current, Total;
      var gate := early;
      var allowed := [];
      var status, reason := Denied, early.denial;
      if early.denial.None? {
        var current := CurrentCandidates(hits);
        gate := EvaluateForClient(clients, policies, clientId, now);
        reason := gate.denial;
        if gate.denial.None? {
          allowed := PermittedCandidates(gate.policy.value, current);
          status, reason :=
            if allowed == [] then Denied else if gate.policy.value.requiresConfirmation then NeedsUserApproval else Fulfilled,
            if current == [] then Some(NoMatchingMemories)
            else if allowed == [] then Some(NoAllowedMemories)
            else if gate.policy.value.requiresConfirmation then Some(ConfirmationRequired)
            else None;
        }
      }
      usedIds := usedIds + {id};
      requests := requests[id := Request(clientId, tokenBudget, status, PolicyId(gate), PolicyVersion(gate), reason, None, None)];
      if status != Fulfilled {
        if status == Denied {
          events := events + [Event(RequestDenied, Some(id), [])];
        }
        assert old(itemRows) + Rows(id, []) == old(itemRows);
        assert old(events) + [] == old(events);
        return Reply.Pending(status, reason);
      }
      var items, estimatedTokens := Compile(allowed, tokenBudget);
      itemRows := itemRows + Rows(id, items);
      events := events + [Event(MemoryDisclosure, Some(id), ItemIds(items))];
      reply := Delivered(items, estimatedTokens);
    }
  }
}
