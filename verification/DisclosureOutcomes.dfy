/** What each call of the disclosure services answers and brings about, over every run. */
module DisclosureOutcomes {
  import opened Common
  import opened Bundles
  import opened Permissions
  import opened Disclosure
  import opened DisclosureRuns
  import opened DisclosureTheorems

  lemma StepIs(states: seq<Vault>, steps: seq<Step>, j: nat)
    requires Run(states, steps) && j < |steps|
    ensures |states| == |steps| + 1 && Legal(states[j], steps[j]) && states[j + 1] == Apply(states[j], steps[j]).0
    ensures IdsOk(states[j]) && RowsOk(states[j])
  {
    Reachable(states, steps, j);
  }

  /** The answer step j got. */
  function Answer(states: seq<Vault>, steps: seq<Step>, j: nat): Reply
    requires j < |steps| < |states|
  {
    Apply(states[j], steps[j]).1
  }

  predicate Waits(v: Vault, id: nat) {
    id in v.requests && v.requests[id].status == NeedsUserApproval
  }

  // ---------------------------------------------------------------- denying

  /** Denying succeeds exactly for a request that waits for review; then it is denied and logged, and otherwise nothing changes. */
  lemma DenyIff(states: seq<Vault>, steps: seq<Step>, j: nat)
    requires Run(states, steps) && j < |steps| && steps[j].Deny?
    ensures Answer(states, steps, j).Done? <==> Waits(states[j], steps[j].id)
    ensures Answer(states, steps, j).Done? ==>
              && steps[j].id in states[j + 1].requests
              && states[j + 1].requests[steps[j].id].status == Denied && states[j + 1].requests[steps[j].id].snapshot.None?
              && states[j + 1].events == states[j].events + [Event(RequestDenied, Some(steps[j].id), [])]
              && states[j + 1].requests - {steps[j].id} == states[j].requests - {steps[j].id}
              && states[j + 1] == states[j].(requests := states[j + 1].requests, events := states[j + 1].events)
    ensures !Answer(states, steps, j).Done? ==> states[j + 1] == states[j]
    ensures Answer(states, steps, j).NotFound? <==> steps[j].id !in states[j].requests
  {
    StepIs(states, steps, j);
  }

  /** A request the owner has denied stays denied: no later approval of it succeeds and nothing of it is ever delivered. */
  lemma DeniedForGood(states: seq<Vault>, steps: seq<Step>, j: nat, k: nat)
    requires Run(states, steps) && j < k < |states| && steps[j].Deny? && Answer(states, steps, j).Done?
    ensures steps[j].id in states[k].requests ==> states[k].requests[steps[j].id].status == Denied
    ensures steps[j].id !in states[k].requests ==> DeletesClient(steps, j + 1, k, states[j + 1].requests[steps[j].id].clientId)
    ensures k < |steps| && steps[k].Approve? && steps[k].id == steps[j].id ==> !Answer(states, steps, k).Done?
    ensures k < |steps| && steps[k].Retrieve? && steps[k].id == steps[j].id ==> !Answer(states, steps, k).Delivered?
  {
    hide Apply, Legal;
    DenyIff(states, steps, j);
    StaysTerminal(states, steps, steps[j].id, j + 1, k);
    if k < |steps| && (steps[k].Approve? || steps[k].Retrieve?) {
      OnlyFromReview(states[k], steps[k]);
    }
  }

  lemma OnlyFromReview(v: Vault, step: Step)
    ensures step.Approve? && Apply(v, step).1.Done? ==> Waits(v, step.id)
    ensures step.Retrieve? && Apply(v, step).1.Delivered? ==> step.id in v.requests && v.requests[step.id].status == Approved
  {
    hide PreviewOf, SnapshotIsCurrent, DisclosureContext, Parses;
  }

  // ---------------------------------------------------------------- where a request comes from

  /** What a request keeps of the call that made it, for all its life. */
  predicate MadeBy(v: Vault, create: Step, r: Request) {
    && create.Create?
    && r.clientId == create.clientId && r.tokenBudget == create.tokenBudget
    && (r.status != Denied && r.policyId.Some? ==>
          create.clientId in v.policies && r.policyId == Some(v.policies[create.clientId].id))
  }

  /** Every request goes back to the one call that made it, and keeps that call's client and budget and the policy found then. */
  lemma {:induction false} RequestOrigin(states: seq<Vault>, steps: seq<Step>, k: nat, id: nat) returns (j: nat)
    requires Run(states, steps) && k < |states| && id in states[k].requests
    ensures j < k && steps[j].Create? && steps[j].id == id && MadeBy(states[j], steps[j], states[k].requests[id])
  {
    hide Apply, Legal, MadeBy, IdsOk, RowsOk;
    if k == 0 {
      assert false;
    } else {
      StepIs(states, steps, k - 1);
      if id in states[k - 1].requests {
        j := RequestOrigin(states, steps, k - 1, id);
        KeepsOrigin(states[k - 1], steps[k - 1], id);
        StillMadeBy(states[j], steps[j], states[k - 1].requests[id], states[k].requests[id]);
      } else {
        MadeNow(states[k - 1], steps[k - 1], id);
        j := k - 1;
      }
    }
  }

  lemma KeepsOrigin(v: Vault, step: Step, id: nat)
    requires IdsOk(v) && Legal(v, step) && id in v.requests && id in Apply(v, step).0.requests
    ensures var before, after := v.requests[id], Apply(v, step).0.requests[id];
            && after.clientId == before.clientId && after.tokenBudget == before.tokenBudget
            && (after.policyId == before.policyId || after.policyId.None?)
            && (before.status == Denied ==> after.status == Denied)
  {
    hide Compiled, PreviewOf, PreviewContext, PreviewedRow, SnapshotIsCurrent, DisclosureContext, Parses, EvaluateForClient,
         Deliverable, Granted, PermittedOf, PreviewEvents, Approvable;
    if step.PreviewIt? && step.id == id {
      PreviewKeepsBinding(v, v.requests[id], step.hits);
    }
    if step.Approve? && step.id == id {
      PreviewKeepsBinding(v, v.requests[id], step.hits);
      OnlyFromReview(v, step);
    }
  }

  lemma PreviewKeepsBinding(v: Vault, r: Request, hits: seq<Hit>)
    ensures var after := PreviewedRow(v, r, hits);
            after.status == r.status && after.clientId == r.clientId && after.tokenBudget == r.tokenBudget && after.policyId == r.policyId
  {
    hide PreviewContext;
  }

  lemma StillMadeBy(v: Vault, create: Step, before: Request, after: Request)
    requires MadeBy(v, create, before)
    requires after.clientId == before.clientId && after.tokenBudget == before.tokenBudget
    requires after.policyId == before.policyId || after.policyId.None?
    requires before.status == Denied ==> after.status == Denied
    ensures MadeBy(v, create, after)
  {
  }

  lemma MadeNow(v: Vault, step: Step, id: nat)
    requires id !in v.requests && id in Apply(v, step).0.requests
    ensures step.Create? && step.id == id && MadeBy(v, step, Apply(v, step).0.requests[id])
  {
    hide Compiled, PreviewOf, PreviewedRow, SnapshotIsCurrent, DisclosureContext, Parses, Granted, PermittedOf, PreviewEvents,
         Approvable, Current;
  }

  // ---------------------------------------------------------------- what is put before the owner

  predicate Permitted(v: Vault, policy: Policy, id: nat) {
    id in v.memories && Permits(policy, v.memories[id], v.now)
  }

  function PermittedIds(v: Vault, policy: Policy, ids: seq<nat>): seq<nat> {
    Filter(ids, (id: nat) => Permitted(v, policy, id))
  }

  function IdsOfCandidates(cs: seq<Candidate>): (ids: seq<nat>)
    ensures |ids| == |cs| && forall i :: 0 <= i < |ids| ==> ids[i] == cs[i].id
  {
    seq(|cs|, i requires 0 <= i < |cs| => cs[i].id)
  }

  /** The candidate is the memory as it is now, with the score retrieval gave it. */
  predicate Shows(c: Candidate, v: Vault, hits: seq<Hit>) {
    && c.id in v.memories
    && c.title == v.memories[c.id].title && c.body == v.memories[c.id].body
    && c.sensitivity == v.memories[c.id].sensitivity && c.categories == v.memories[c.id].categories
    && Hit(c.id, c.relevanceScore) in hits
  }

  /** The candidates are exactly the memories found that the policy permits, in the order they were found. */
  predicate Offers(cs: seq<Candidate>, v: Vault, policy: Policy, hits: seq<Hit>) {
    IdsOfCandidates(cs) == PermittedIds(v, policy, HitIds(hits)) && forall c :: c in cs ==> Shows(c, v, hits)
  }

  lemma ShowsMore(v: Vault, hits: seq<Hit>, cs: seq<Candidate>)
    requires hits != [] && forall c :: c in cs ==> Shows(c, v, hits[1..])
    ensures forall c :: c in cs ==> Shows(c, v, hits)
  {
    assert hits == [hits[0]] + hits[1..];
  }

  lemma PermittedCons(v: Vault, policy: Policy, hits: seq<Hit>)
    requires hits != []
    ensures PermittedIds(v, policy, HitIds(hits))
         == (if Permitted(v, policy, hits[0].id) then [hits[0].id] else []) + PermittedIds(v, policy, HitIds(hits[1..]))
  {
    hide Permits;
    assert HitIds(hits)[0] == hits[0].id;
    assert HitIds(hits)[1..] == HitIds(hits[1..]);
  }

  lemma OffersCons(v: Vault, policy: Policy, hits: seq<Hit>, rest: seq<Candidate>)
    requires hits != [] && Offers(rest, v, policy, hits[1..])
    ensures var id := hits[0].id;
            if Permitted(v, policy, id) then Offers([CandidateOf(id, v.memories[id], hits[0].score)] + rest, v, policy, hits)
            else Offers(rest, v, policy, hits)
  {
    hide Permits, Shows, PermittedIds, HitIds;
    PermittedCons(v, policy, hits);
    ShowsMore(v, hits, rest);
    var id := hits[0].id;
    if Permitted(v, policy, id) {
      var c := CandidateOf(id, v.memories[id], hits[0].score);
      assert Shows(c, v, hits) by { HeadShows(v, policy, hits); }
      assert IdsOfCandidates([c] + rest) == [id] + IdsOfCandidates(rest);
    } else {
      assert [] + PermittedIds(v, policy, HitIds(hits[1..])) == PermittedIds(v, policy, HitIds(hits[1..]));
    }
  }

  lemma HeadShows(v: Vault, policy: Policy, hits: seq<Hit>)
    requires hits != [] && Permitted(v, policy, hits[0].id)
    ensures Shows(CandidateOf(hits[0].id, v.memories[hits[0].id], hits[0].score), v, hits)
  {
    hide Permits;
    assert hits[0] in hits;
  }

  /** The context speaks for this policy and these memories. */
  predicate Speaks(context: Context, v: Vault, policy: Policy, ids: seq<nat>) {
    forall id :: id in ids ==>
      (id in context.memories && id in context.allowed <==> Permitted(v, policy, id)) &&
      (id in context.memories ==> id in v.memories && context.memories[id] == v.memories[id])
  }

  lemma {:induction false} EligibleOffers(v: Vault, policy: Policy, hits: seq<Hit>, context: Context)
    requires Speaks(context, v, policy, HitIds(hits))
    ensures Offers(Eligible(hits, context), v, policy, hits)
  {
    hide Permits, CandidateOf, Offers;
    if hits == [] {
      NothingOffered(v, policy);
    } else {
      assert HitIds(hits)[0] == hits[0].id;
      assert forall i :: 0 <= i < |hits[1..]| ==> HitIds(hits[1..])[i] == HitIds(hits)[i + 1];
      EligibleOffers(v, policy, hits[1..], context);
      OffersCons(v, policy, hits, Eligible(hits[1..], context));
      if !(hits[0].id in context.memories && hits[0].id in context.allowed) {
        assert [] + Eligible(hits[1..], context) == Eligible(hits[1..], context);
      }
    }
  }

  lemma NothingOffered(v: Vault, policy: Policy)
    ensures Offers([], v, policy, [])
  {
  }

  lemma {:induction false} CurrentOffers(v: Vault, policy: Policy, hits: seq<Hit>)
    ensures Offers(PermittedOf(v, policy, Current(v, hits)), v, policy, hits)
  {
    hide Permits, CandidateOf, Offers;
    if hits == [] {
      NothingOffered(v, policy);
    } else {
      CurrentOffers(v, policy, hits[1..]);
      OffersCons(v, policy, hits, PermittedOf(v, policy, Current(v, hits[1..])));
      if hits[0].id in v.memories {
        var c := CandidateOf(hits[0].id, v.memories[hits[0].id], hits[0].score);
        CandidateIs(hits[0].id, v, hits[0].score);
        var p := (x: Candidate) => x.id in v.memories && Permits(policy, v.memories[x.id], v.now);
        FilterAppend([c], Current(v, hits[1..]), p);
        assert Current(v, hits) == [c] + Current(v, hits[1..]);
        assert Filter([c], p) == if Permitted(v, policy, hits[0].id) then [c] else [];
        assert [] + Filter(Current(v, hits[1..]), p) == Filter(Current(v, hits[1..]), p);
      } else {
        assert Current(v, hits) == Current(v, hits[1..]);
      }
    }
  }

  /** The client may read now, under the policy the request was made under. */
  predicate Authorized(v: Vault, r: Request) {
    && r.clientId in v.clients && v.clients[r.clientId].trust != BlockedTrust
    && r.clientId in v.policies && v.policies[r.clientId].mayRead && Unexpired(v.policies[r.clientId].expiresAt, v.now)
    && r.policyId == Some(v.policies[r.clientId].id)
  }

  lemma AuthorizedContext(v: Vault, r: Request, ids: seq<nat>)
    ensures Authorized(v, r) ==>
              var context := DisclosureContext(v, r, ids);
              context.bound && context.policy == Some(v.policies[r.clientId]) && context.client == Some(v.clients[r.clientId]) &&
              context.policyVersion == Some(v.policies[r.clientId].updatedAt) &&
              Speaks(context, v, v.policies[r.clientId], ids)
    ensures !Authorized(v, r) ==> DisclosureContext(v, r, ids).allowed == {}
  {
    hide Permits;
  }

  lemma {:induction false} NoneAllowed(hits: seq<Hit>, context: Context)
    requires context.allowed == {}
    ensures Eligible(hits, context) == []
  {
    if hits != [] {
      NoneAllowed(hits[1..], context);
    }
  }

  /** The memories a request's context holds are the live ones asked for, and only if its client may read; allowed are those its own policy permits. */
  lemma ContextIs(v: Vault, r: Request, ids: seq<nat>, id: nat)
    ensures var context := DisclosureContext(v, r, ids);
            && (id in context.memories <==> MayRead(v, r.clientId) && r.policyId.Some? && id in ids && id in v.memories)
            && (id in context.memories ==> context.memories[id] == v.memories[id])
            && (id in context.allowed <==> Authorized(v, r) && id in ids && Permitted(v, v.policies[r.clientId], id))
            && context.client == (if r.clientId in v.clients then Some(v.clients[r.clientId]) else None)
  {
    hide Permits;
  }

  /** The revision is that of a snapshot of the live client, policy and permitted memories, each at its version. */
  ghost predicate IsCurrent(revision: Revision, v: Vault, id: nat, hits: seq<Hit>)
    requires id in v.requests
  {
    var r := v.requests[id];
    && Authorized(v, r)
    && revision.requestId == id
    && revision.snapshot.policyId == Some(v.policies[r.clientId].id)
    && revision.snapshot.policyVersion == Some(v.policies[r.clientId].updatedAt)
    && revision.snapshot.clientVersion == Some(ClientRevision(r.clientId, v.clients[r.clientId]))
    && (forall m :: m in revision.snapshot.versions <==> m in HitIds(hits) && Permitted(v, v.policies[r.clientId], m))
    && (forall m :: m in revision.snapshot.versions ==> revision.snapshot.versions[m] == v.memories[m].updatedAt)
    && exists cs :: Offers(cs, v, v.policies[r.clientId], hits) && revision.snapshot.items == Compiled(cs, r.tokenBudget)
  }

  lemma ContextMemories(v: Vault, r: Request, ids: seq<nat>)
    ensures forall id :: id in DisclosureContext(v, r, ids).memories ==>
              id in ids && id in v.memories && DisclosureContext(v, r, ids).memories[id] == v.memories[id]
  {
    hide EvaluateForClient;
  }

  lemma SnapshotIsLive(v: Vault, id: nat, hits: seq<Hit>)
    requires id in v.requests && v.requests[id].status != Approved && Authorized(v, v.requests[id])
    ensures IsCurrent(PreviewOf(v, id, hits).revision, v, id, hits)
  {
    hide Permits, Compiled, DisclosureContext, Offers, MustInvalidate;
    var r := v.requests[id];
    var policy := v.policies[r.clientId];
    var context := DisclosureContext(v, r, HitIds(hits));
    AuthorizedContext(v, r, HitIds(hits));
    ContextMemories(v, r, HitIds(hits));
    EligibleOffers(v, policy, hits, context);
    assert Offers(Eligible(hits, context), v, policy, hits);
    forall m: nat
      ensures m in CandidateIds(Eligible(hits, context)) <==> m in HitIds(hits) && Permitted(v, policy, m)
    {
      OfferedIds(Eligible(hits, context), v, policy, hits, m);
    }
  }

  lemma OfferedIds(cs: seq<Candidate>, v: Vault, policy: Policy, hits: seq<Hit>, m: nat)
    requires Offers(cs, v, policy, hits)
    ensures m in CandidateIds(cs) <==> m in HitIds(hits) && Permitted(v, policy, m)
  {
    hide Permits, Shows;
    FilterMembers(HitIds(hits), (id: nat) => Permitted(v, policy, id));
    if m in CandidateIds(cs) {
      var c :| c in cs && c.id == m;
      var i :| 0 <= i < |cs| && cs[i] == c;
      assert IdsOfCandidates(cs)[i] == m;
    }
    if m in IdsOfCandidates(cs) {
      var i :| 0 <= i < |cs| && IdsOfCandidates(cs)[i] == m;
      assert cs[i] in cs && cs[i].id == m;
    }
  }

  /** Retrieval found something that the policy permits the client now. */
  predicate SomethingToShow(v: Vault, r: Request, hits: seq<Hit>) {
    Authorized(v, r) && exists id :: id in HitIds(hits) && Permitted(v, v.policies[r.clientId], id)
  }

  lemma ApprovableWhen(v: Vault, id: nat, hits: seq<Hit>)
    requires id in v.requests && v.requests[id].status != Approved
    ensures PreviewOf(v, id, hits).canApprove <==> v.requests[id].status == NeedsUserApproval && SomethingToShow(v, v.requests[id], hits)
    ensures PreviewOf(v, id, hits).items == PreviewOf(v, id, hits).revision.snapshot.items
    ensures !PreviewOf(v, id, hits).approvalExpired
  {
    hide Permits, Compiled, DisclosureContext, PreviewedRow, IsCurrent;
    var r := v.requests[id];
    PreviewKeepsBinding(v, r, hits);
    var context := DisclosureContext(v, r, HitIds(hits));
    AuthorizedContext(v, r, HitIds(hits));
    if Authorized(v, r) {
      var policy := v.policies[r.clientId];
      var cs := Eligible(hits, context);
      EligibleOffers(v, policy, hits, context);
      CompiledNotEmpty(cs, r.tokenBudget);
      if cs != [] {
        OfferedIds(cs, v, policy, hits, cs[0].id);
      }
      if SomethingToShow(v, r, hits) {
        var m :| m in HitIds(hits) && Permitted(v, policy, m);
        OfferedIds(cs, v, policy, hits, m);
      }
    } else {
      NoneAllowed(hits, context);
      CompiledNotEmpty([], r.tokenBudget);
    }
  }

  lemma CompiledNotEmpty(cs: seq<Candidate>, budget: int)
    ensures Compiled(cs, budget) == [] <==> cs == []
  {
  }

  /**
   * A preview of a request that is not approved can be approved exactly when the request waits, its client may read under
   * its policy now, and some memory found is permitted; then it shows the bundle of exactly the permitted memories found, as
   * they are now, under a revision that fixes them, the policy and the client.
   */
  lemma PreviewShows(states: seq<Vault>, steps: seq<Step>, j: nat)
    requires Run(states, steps) && j < |steps| && steps[j].PreviewIt? && steps[j].id in states[j].requests
    requires states[j].requests[steps[j].id].status != Approved
    ensures var v, step, answer := states[j], steps[j], Answer(states, steps, j);
            && answer.Shown? && answer.preview.items == answer.preview.revision.snapshot.items && !answer.preview.approvalExpired
            && (answer.preview.canApprove <==> Waits(v, step.id) && SomethingToShow(v, v.requests[step.id], step.hits))
            && (Authorized(v, v.requests[step.id]) ==> IsCurrent(answer.preview.revision, v, step.id, step.hits))
  {
    hide PreviewOf, IsCurrent, AfterPreview, SomethingToShow;
    var v, step := states[j], steps[j];
    ApprovableWhen(v, step.id, step.hits);
    if Authorized(v, v.requests[step.id]) {
      SnapshotIsLive(v, step.id, step.hits);
    }
  }

  /** What a preview would answer right now. */
  function WouldShow(v: Vault, id: nat, hits: seq<Hit>): Reply {
    Apply(v, PreviewIt(id, hits)).1
  }

  predicate SelectsFrom(memoryIds: seq<nat>, items: seq<Item>) {
    forall id :: id in memoryIds ==> exists item :: item in items && item.memoryId == id
  }

  /**
   * An approval succeeds exactly when the request waits for review, a preview at that very moment could be approved and has the
   * revision submitted, and every selected memory is among its items. Then the owner's selection of those items is granted for
   * fifteen minutes, and logged.
   */
  lemma ApproveIff(states: seq<Vault>, steps: seq<Step>, j: nat)
    requires Run(states, steps) && j < |steps| && steps[j].Approve?
    ensures Answer(states, steps, j).Done? <==>
              && Waits(states[j], steps[j].id)
              && WouldShow(states[j], steps[j].id, steps[j].hits).Shown?
              && WouldShow(states[j], steps[j].id, steps[j].hits).preview.canApprove
              && WouldShow(states[j], steps[j].id, steps[j].hits).preview.revision == steps[j].revision
              && SelectsFrom(steps[j].memoryIds, WouldShow(states[j], steps[j].id, steps[j].hits).preview.items)
    ensures Answer(states, steps, j).Done? ==>
              && steps[j].id in states[j + 1].requests
              && var r := states[j + 1].requests[steps[j].id];
                 && r.status == Approved && r.approvalExpiresAt == Some(states[j].now + 900_000) && r.snapshot.Some?
                 && (forall item :: item in r.snapshot.value.items <==>
                       item in steps[j].revision.snapshot.items && item.memoryId in steps[j].memoryIds)
                 && |states[j + 1].events| > |states[j].events|
                 && states[j + 1].events[|states[j + 1].events| - 1] == Event(RequestApproved, Some(steps[j].id), steps[j].memoryIds)
                 && states[j + 1].requests - {steps[j].id} == states[j].requests - {steps[j].id}
    ensures !Answer(states, steps, j).Done? ==> states[j + 1] == states[j]
  {
    hide PreviewSnapshot, PreviewContext, PreviewedRow, PreviewEvents;
    StepIs(states, steps, j);
    var v, step := states[j], steps[j];
    if Waits(v, step.id) {
      FreshPreview(v, step.id, step.hits);
      var items := PreviewOf(v, step.id, step.hits).snapshot.items;
      SelectionCounts(items, step.memoryIds);
      SelectionDistinct(items, ToSet(step.memoryIds));
      PreviewIs(v, step.id, step.hits);
    }
  }

  lemma PreviewIs(v: Vault, id: nat, hits: seq<Hit>)
    requires id in v.requests
    ensures WouldShow(v, id, hits) == Shown(PreviewOf(v, id, hits))
    ensures PreviewOf(v, id, hits).items == PreviewOf(v, id, hits).snapshot.items
    ensures PreviewOf(v, id, hits).revision.snapshot == PreviewOf(v, id, hits).snapshot
  {
    hide PreviewSnapshot, PreviewContext, PreviewedRow;
  }

  /** Of distinct items, as many are selected as ids are named exactly when every named id has an item. */
  lemma SelectionCounts(items: seq<Item>, memoryIds: seq<nat>)
    requires DistinctItems(items)
    ensures |Selection(items, ToSet(memoryIds))| == |ToSet(memoryIds)| <==> SelectsFrom(memoryIds, items)
  {
    hide Selection;
    var ids := ToSet(memoryIds);
    SelectionDistinct(items, ids);
    var chosen := Selection(items, ids);
    assert forall i :: 0 <= i < |chosen| ==> chosen[i] in chosen;
    DistinctCardinality(ItemIds(chosen));
    var found := ToSet(ItemIds(chosen));
    assert found <= ids;
    if SelectsFrom(memoryIds, items) {
      forall id | id in ids
        ensures id in found
      {
        var item :| item in items && item.memoryId == id;
        assert item in chosen;
        var i :| 0 <= i < |chosen| && chosen[i] == item;
        assert ItemIds(chosen)[i] == id;
      }
      assert found == ids;
    }
    if |chosen| == |ids| {
      FullSelection(items, ids);
      forall id | id in memoryIds
        ensures exists item :: item in items && item.memoryId == id
      {
        assert id in found;
        var i :| 0 <= i < |ItemIds(chosen)| && ItemIds(chosen)[i] == id;
        assert chosen[i] in chosen && chosen[i] in items;
      }
    }
  }

  // ---------------------------------------------------------------- what a preview writes

  /** The live policy is the one the request is bound to, at the version it is bound at; a request without a policy is bound to none. */
  predicate StillBound(v: Vault, r: Request) {
    r.policyId.Some? ==>
      && r.clientId in v.policies && r.policyId == Some(v.policies[r.clientId].id)
      && r.policyVersion == Some(v.policies[r.clientId].updatedAt)
  }

  /**
   * A preview writes nothing unless the request waits and its policy is gone, replaced or edited; then the request waits on, its
   * reason is that the policy changed, it is bound to the live version if the policy is still its own, and that is logged.
   */
  lemma PreviewWrites(states: seq<Vault>, steps: seq<Step>, j: nat)
    requires Run(states, steps) && j < |steps| && steps[j].PreviewIt? && steps[j].id in states[j].requests
    ensures states[j + 1] == states[j] <==> !(Waits(states[j], steps[j].id) && !StillBound(states[j], states[j].requests[steps[j].id]))
    ensures states[j + 1] != states[j] ==>
              var v, r := states[j], states[j].requests[steps[j].id];
              var own := r.clientId in v.policies && r.policyId == Some(v.policies[r.clientId].id);
              && states[j + 1].events == v.events + [Event(RequestDenied, Some(steps[j].id), [])]
              && states[j + 1] == v.(events := states[j + 1].events, requests := v.requests[steps[j].id :=
                   r.(reason := Some(PolicyChanged), approvalExpiresAt := None, snapshot := None,
                      policyVersion := if own then Some(v.policies[r.clientId].updatedAt) else r.policyVersion)])
  {
    hide PreviewOf, Permits;
    StepIs(states, steps, j);
    var v, r := states[j], states[j].requests[steps[j].id];
    ContextAuthority(v, r, HitIds(steps[j].hits));
    LivePolicy(v, r);
    assert v.requests[steps[j].id := r] == v.requests;
    assert v.events + [] == v.events;
    assert |v.events + [Event(RequestDenied, Some(steps[j].id), [])]| != |v.events|;
  }

  lemma LivePolicy(v: Vault, r: Request)
    requires IdsOk(v)
    ensures EvaluateForClient(v.clients, v.policies, r.clientId, v.now).policy
         == if r.clientId in v.policies then Some(v.policies[r.clientId]) else None
  {
  }

  // ---------------------------------------------------------------- creating

  /** The bundle is compiled from exactly the memories found that the policy permits. */
  ghost predicate BundleOf(items: seq<Item>, v: Vault, policy: Policy, hits: seq<Hit>, tokenBudget: int) {
    exists cs :: Offers(cs, v, policy, hits) && items == Compiled(cs, tokenBudget)
  }

  predicate MayRead(v: Vault, clientId: nat) {
    && clientId in v.clients && v.clients[clientId].trust != BlockedTrust
    && clientId in v.policies && v.policies[clientId].mayRead && Unexpired(v.policies[clientId].expiresAt, v.now)
  }

  predicate FindsAny(v: Vault, hits: seq<Hit>) {
    exists hit :: hit in hits && hit.id in v.memories
  }

  lemma {:induction false} NoneCurrent(v: Vault, hits: seq<Hit>)
    ensures Current(v, hits) == [] <==> !FindsAny(v, hits)
  {
    hide CandidateOf;
    if hits != [] {
      NoneCurrent(v, hits[1..]);
      assert hits == [hits[0]] + hits[1..];
      if FindsAny(v, hits[1..]) {
        var hit :| hit in hits[1..] && hit.id in v.memories;
        assert hit in hits;
      }
    }
  }

  /**
   * What creating a request answers and stores: fulfilled at once, it delivers the bundle of exactly what the policy permits of what
   * was found; waiting, it is bound to the live policy at its version; denied, it says why, in the order the checks are made.
   */
  lemma CreateAnswers(states: seq<Vault>, steps: seq<Step>, j: nat)
    requires Run(states, steps) && j < |steps| && steps[j].Create?
    ensures steps[j].id in states[j + 1].requests
    ensures var v, step, r, answer := states[j], steps[j], states[j + 1].requests[steps[j].id], Answer(states, steps, j);
            && (r.status == Fulfilled ==>
                  step.clientId in v.policies && answer.Delivered? && r.reason.None? &&
                  BundleOf(answer.items, v, v.policies[step.clientId], step.hits, step.tokenBudget))
            && (r.status == NeedsUserApproval ==>
                  r.policyId.Some? && StillBound(v, r) && r.reason == Some(ConfirmationRequired) && answer == Pending(r.status, r.reason))
            && (r.status == Denied ==>
                  && answer == Pending(r.status, r.reason)
                  && if step.early.denial.Some? then r.reason == step.early.denial
                     else if !MayRead(v, step.clientId) then
                       r.reason == EvaluateForClient(v.clients, v.policies, step.clientId, v.now).denial
                     else r.reason == Some(if FindsAny(v, step.hits) then NoAllowedMemories else NoMatchingMemories))
            && r.approvalExpiresAt.None? && r.snapshot.None? && r.status != Approved
            && states[j + 1].requests - {step.id} == v.requests
  {
    hide Compiled, PermittedOf, Current, Offers, FindsAny, Permits;
    StepIs(states, steps, j);
    var v, step := states[j], steps[j];
    NoneCurrent(v, step.hits);
    LivePolicy(v, states[j + 1].requests[step.id]);
    if step.clientId in v.policies {
      CurrentOffers(v, v.policies[step.clientId], step.hits);
      NonePermitted(v, v.policies[step.clientId]);
    }
  }

  lemma NonePermitted(v: Vault, policy: Policy)
    ensures PermittedOf(v, policy, []) == []
  {
  }

  // ---------------------------------------------------------------- retrieving

  /**
   * What retrieval answers when it delivers nothing: a foreign or unknown request is not found, one that is not approved is answered
   * with its status, and neither changes anything; an approved one goes back to review without its grant, because it is too late or
   * unreadable, or because something changed, which is logged.
   */
  lemma RetrieveRefuses(states: seq<Vault>, steps: seq<Step>, k: nat)
    requires Run(states, steps) && k < |steps| && steps[k].Retrieve? && !Answer(states, steps, k).Delivered?
    ensures var v, step, answer := states[k], steps[k], Answer(states, steps, k);
            var own := step.id in v.requests && v.requests[step.id].clientId == step.clientId;
            if !own then answer == NotFound && states[k + 1] == v
            else
              var r := v.requests[step.id];
              if r.status != Approved then answer == Pending(r.status, r.reason) && states[k + 1] == v
              else
                && answer.Pending? && answer.status == NeedsUserApproval
                && answer.reason == Some(if Parses(r.snapshot) && r.approvalExpiresAt.Some? && r.approvalExpiresAt.value > v.now then PolicyChanged else ConfirmationRequired)
                && Waits(states[k + 1], step.id)
                && states[k + 1].requests[step.id].reason == answer.reason
                && states[k + 1].requests[step.id].snapshot.None? && states[k + 1].requests[step.id].approvalExpiresAt.None?
                && states[k + 1].events == v.events + (if answer.reason == Some(PolicyChanged) then [Event(RequestDenied, Some(step.id), [])] else [])
                && states[k + 1].requests - {step.id} == v.requests - {step.id}
  {
    hide DisclosureContext, SnapshotIsCurrent, Parses;
    StepIs(states, steps, k);
    assert states[k].events + [] == states[k].events;
  }

  /** Between a state in which a request is not approved and one in which it is lies a successful approval of it. */
  lemma {:induction false} ApprovedBetween(states: seq<Vault>, steps: seq<Step>, i: nat, m: nat, id: nat) returns (j: nat)
    requires Run(states, steps) && i <= m < |states|
    requires !(id in states[i].requests && states[i].requests[id].status == Approved)
    requires id in states[m].requests && states[m].requests[id].status == Approved
    ensures i <= j < m && steps[j].Approve? && steps[j].id == id && Answer(states, steps, j).Done?
    decreases m
  {
    hide Apply, Legal, Approvable, IdsOk, RowsOk;
    StepIs(states, steps, m - 1);
    if id in states[m - 1].requests && states[m - 1].requests[id].status == Approved {
      j := ApprovedBetween(states, steps, i, m - 1, id);
    } else {
      j := m - 1;
      OnlyApprovalApproves(states[j], steps[j], id);
    }
  }

  lemma OnlyApprovalApproves(v: Vault, step: Step, id: nat)
    requires IdsOk(v) && Legal(v, step) && id in Apply(v, step).0.requests && Apply(v, step).0.requests[id].status == Approved
    requires !(id in v.requests && v.requests[id].status == Approved)
    ensures step.Approve? && step.id == id && Apply(v, step).1.Done?
  {
    hide Legal, Approvable;
    ApprovedStep(v, step, id);
  }

  /** Once a retrieval has found a grant stale or late, nothing of the request is delivered without another approval in between. */
  lemma RefusedNeedsFreshApproval(states: seq<Vault>, steps: seq<Step>, k: nat, m: nat) returns (j: nat)
    requires Run(states, steps) && k < m && k < |steps| && steps[k].Retrieve? && !Answer(states, steps, k).Delivered?
    requires steps[k].id in states[k].requests && states[k].requests[steps[k].id].clientId == steps[k].clientId
    requires DeliversAt(states, steps, m) && steps[m].id == steps[k].id
    ensures k < j < m && steps[j].Approve? && steps[j].id == steps[k].id && Answer(states, steps, j).Done?
  {
    hide Apply, Legal;
    RetrieveRefuses(states, steps, k);
    DeliveryIsTerminal(states[m], steps[m]);
    j := ApprovedBetween(states, steps, k + 1, m, steps[k].id);
  }

  /** The items are recorded for the request, each whole, and announced by one event with exactly their ids. */
  predicate Recorded(v: Vault, w: Vault, id: nat, items: seq<Item>) {
    && |w.itemRows| == |v.itemRows| + |items| && w.itemRows[..|v.itemRows|] == v.itemRows
    && (forall i :: 0 <= i < |items| ==> w.itemRows[|v.itemRows| + i] == ItemRow(id, items[i]))
    && |w.events| == |v.events| + 1 && w.events[..|v.events|] == v.events
    && w.events[|v.events|].kind == MemoryDisclosure && w.events[|v.events|].requestId == Some(id)
    && |w.events[|v.events|].memoryIds| == |items|
    && (forall i :: 0 <= i < |items| ==> w.events[|v.events|].memoryIds[i] == items[i].memoryId)
    && id in w.requests && w.requests[id].status == Fulfilled && w.requests[id].snapshot.None?
  }

  lemma RecordedBy(v: Vault, w: Vault, id: nat, items: seq<Item>)
    requires w.itemRows == v.itemRows + Rows(id, items) && w.events == v.events + [Event(MemoryDisclosure, Some(id), ItemIds(items))]
    requires id in w.requests && w.requests[id].status == Fulfilled && w.requests[id].snapshot.None?
    ensures Recorded(v, w, id, items)
  {
  }

  lemma DeliveredBy(v: Vault, step: Step)
    requires (step.Create? || step.Retrieve?) && Apply(v, step).1.Delivered?
    ensures var items, w := Apply(v, step).1.items, Apply(v, step).0;
            && w.itemRows == v.itemRows + Rows(step.id, items) && w.events == v.events + [Event(MemoryDisclosure, Some(step.id), ItemIds(items))]
            && step.id in w.requests && w.requests[step.id].status == Fulfilled && w.requests[step.id].snapshot.None?
            && Apply(v, step).1.estimatedTokens == Total(items)
  {
    hide Compiled, PermittedOf, Current, EvaluateForClient, Deliverable, DisclosureContext, Parses, Total, Rows, ItemIds;
  }

  /** What is delivered, at once or through retrieval, is what is recorded, with its token total, and the request is fulfilled without a grant. */
  lemma DeliveryRecorded(states: seq<Vault>, steps: seq<Step>, k: nat)
    requires Run(states, steps) && k < |steps| && (steps[k].Create? || steps[k].Retrieve?) && Answer(states, steps, k).Delivered?
    ensures Recorded(states[k], states[k + 1], steps[k].id, Answer(states, steps, k).items)
    ensures Answer(states, steps, k).estimatedTokens == Total(Answer(states, steps, k).items)
  {
    hide Apply, Recorded, Total;
    StepIs(states, steps, k);
    DeliveredBy(states[k], steps[k]);
    RecordedBy(states[k], states[k + 1], steps[k].id, Answer(states, steps, k).items);
  }
}
