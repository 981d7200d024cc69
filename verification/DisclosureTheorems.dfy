/** End-to-end guarantees of the disclosure lifecycle, over every run. */
module DisclosureTheorems {
  import opened Common
  import opened Bundles
  import opened Permissions
  import opened Disclosure
  import opened DisclosureRuns

  // ---------------------------------------------------------------- single delivery

  /**
   * A fulfilled or denied request delivers nothing and never changes again, except that it forgets a policy that is
   * deleted; only deleting its client removes it.
   */
  lemma TerminalStep(v: Vault, step: Step, id: nat)
    requires id in v.requests && v.requests[id].status in {Fulfilled, Denied}
    requires v.requests.Keys <= v.usedIds && Legal(v, step)
    ensures id in Apply(v, step).0.requests ==> Apply(v, step).0.requests[id].(policyId := None) == v.requests[id].(policyId := None)
    ensures id !in Apply(v, step).0.requests ==> step.DropClient? && step.id == v.requests[id].clientId
    ensures step.Retrieve? && step.id == id ==> !Apply(v, step).1.Delivered?
  {
    hide Compiled, PreviewOf, PreviewContext, PreviewedRow, SnapshotIsCurrent, DisclosureContext, Parses,
         EvaluateForClient, Deliverable, Granted, PermittedOf, PreviewEvents;
    if step.PreviewIt? && step.id == id {
      PreviewKeepsStatus(v, v.requests[id], step.hits);
    }
  }

  /** No step reuses an id, so a request that is gone stays gone. */
  lemma GoneStep(v: Vault, step: Step, id: nat)
    requires Legal(v, step)
    ensures v.usedIds <= Apply(v, step).0.usedIds
    ensures id in v.usedIds && id !in v.requests ==> id !in Apply(v, step).0.requests
  {
    hide Compiled, PreviewOf, PreviewContext, PreviewedRow, DisclosureContext, Parses, Deliverable, Granted,
         PermittedOf, PreviewEvents, Approvable;
  }

  /** A step between the two moments deletes the client. */
  predicate DeletesClient(steps: seq<Step>, i: nat, j: nat, client: nat) {
    exists k :: i <= k < j && k < |steps| && steps[k].DropClient? && steps[k].id == client
  }

  /** Once terminal, a request never changes, its policy id aside; it disappears only with its client, and then for good. */
  lemma {:induction false} StaysTerminal(states: seq<Vault>, steps: seq<Step>, id: nat, i: nat, j: nat)
    requires Run(states, steps) && i <= j < |states|
    requires id in states[i].requests && states[i].requests[id].status in {Fulfilled, Denied}
    ensures id in states[j].requests ==> states[j].requests[id].(policyId := None) == states[i].requests[id].(policyId := None)
    ensures id !in states[j].requests ==> id in states[j].usedIds && DeletesClient(steps, i, j, states[i].requests[id].clientId)
  {
    hide Apply, Legal, RowsOk, AuditAgrees;
    Reachable(states, steps, j);
    if i < j {
      StaysTerminal(states, steps, id, i, j - 1);
      Reachable(states, steps, j - 1);
      GoneStep(states[j - 1], steps[j - 1], id);
      if id in states[j - 1].requests {
        TerminalStep(states[j - 1], steps[j - 1], id);
      }
    }
  }

  ghost predicate DeliversAt(states: seq<Vault>, steps: seq<Step>, k: nat)
    requires Run(states, steps)
  {
    k < |steps| && steps[k].Retrieve? && Apply(states[k], steps[k]).1.Delivered?
  }

  lemma DeliveryIsTerminal(v: Vault, step: Step)
    requires step.Retrieve? && Apply(v, step).1.Delivered?
    ensures step.id in v.requests && v.requests[step.id].status == Approved
    ensures step.id in Apply(v, step).0.requests && Apply(v, step).0.requests[step.id].status == Fulfilled
  {
    hide SnapshotIsCurrent, DisclosureContext, Parses;
  }

  /** Each request is delivered through retrieval at most once, in every run. */
  lemma DeliveredAtMostOnce(states: seq<Vault>, steps: seq<Step>, j: nat, k: nat)
    requires Run(states, steps) && DeliversAt(states, steps, j) && DeliversAt(states, steps, k)
    requires steps[j].id == steps[k].id
    ensures j == k
  {
    hide Apply, Legal;
    DeliveryIsTerminal(states[j], steps[j]);
    DeliveryIsTerminal(states[k], steps[k]);
    if j < k {
      StaysTerminal(states, steps, steps[j].id, j + 1, k);
    } else if k < j {
      StaysTerminal(states, steps, steps[j].id, k + 1, j);
    }
  }

  /** The disclosure log agrees with what was delivered, in every reachable vault. */
  lemma SingleAuditedDelivery(states: seq<Vault>, steps: seq<Step>, k: nat, id: nat)
    requires Run(states, steps) && k < |states| && id in states[k].requests
    ensures states[k].requests[id].status == Fulfilled ==>
              DisclosuresOf(states[k].events, id) == [RowIds(states[k].itemRows, id)]
    ensures states[k].requests[id].status != Fulfilled ==>
              DisclosuresOf(states[k].events, id) == [] && RowIds(states[k].itemRows, id) == []
  {
    Reachable(states, steps, k);
    assert AuditAgreesFor(states[k], id);
  }

  // ---------------------------------------------------------------- where an approval comes from

  /** Step j approved exactly what the row of id holds in `later`. */
  ghost predicate GrantedBy(before: Vault, approve: Step, id: nat, later: Vault) {
    && approve.Approve? && approve.id == id
    && id in before.requests && id in later.requests
    && Approvable(before, id, approve.revision, approve.memoryIds, approve.hits)
    && later.requests[id].status == Approved
    && later.requests[id].snapshot == Some(Granted(approve.revision.snapshot, ToSet(approve.memoryIds)))
    && later.requests[id].approvalExpiresAt == Some(before.now + APPROVAL_TTL_MS)
    && later.requests[id].clientId == before.requests[id].clientId
    && later.requests[id].tokenBudget == before.requests[id].tokenBudget
  }

  lemma ApproveGrants(v: Vault, step: Step)
    requires step.Approve? && step.id in v.requests
    requires Approvable(v, step.id, step.revision, step.memoryIds, step.hits)
    ensures GrantedBy(v, step, step.id, Apply(v, step).0)
  {
    hide PreviewSnapshot, PreviewContext, PreviewedRow, Granted;
    PreviewKeepsStatus(v, v.requests[step.id], step.hits);
  }

  predicate SameGrant(r: Request, s: Request) {
    r.status == s.status && r.snapshot == s.snapshot && r.approvalExpiresAt == s.approvalExpiresAt &&
    r.clientId == s.clientId && r.tokenBudget == s.tokenBudget
  }

  /** Only an approval step makes a row approved; every other step at most keeps the grant. */
  lemma ApprovedStep(v: Vault, step: Step, id: nat)
    requires Legal(v, step) && id in Apply(v, step).0.requests && Apply(v, step).0.requests[id].status == Approved
    requires v.requests.Keys <= v.usedIds
    ensures (step.Approve? && step.id == id && id in v.requests &&
             Approvable(v, id, step.revision, step.memoryIds, step.hits))
         || (id in v.requests && SameGrant(v.requests[id], Apply(v, step).0.requests[id]))
  {
    hide Compiled, PreviewOf, PreviewContext, PreviewedRow, SnapshotIsCurrent, DisclosureContext, Parses,
         EvaluateForClient, Deliverable, Granted, PermittedOf, PreviewEvents, Approvable;
    if step.PreviewIt? && step.id == id && id in v.requests {
      PreviewKeepsStatus(v, v.requests[id], step.hits);
    }
  }

  /** Every approved row goes back to one earlier approval step of the run. */
  lemma {:induction false} GrantOrigin(states: seq<Vault>, steps: seq<Step>, id: nat, k: nat) returns (j: nat)
    requires Run(states, steps) && k < |states|
    requires id in states[k].requests && states[k].requests[id].status == Approved
    ensures j < k && GrantedBy(states[j], steps[j], id, states[k])
  {
    if k == 0 {
      assert false;
    } else {
      var v, step := states[k - 1], steps[k - 1];
      Reachable(states, steps, k - 1);
      ApprovedStep(v, step, id);
      if step.Approve? && step.id == id && id in v.requests &&
         Approvable(v, id, step.revision, step.memoryIds, step.hits) {
        ApproveGrants(v, step);
        j := k - 1;
      } else {
        j := GrantOrigin(states, steps, id, k - 1);
      }
    }
  }

  // ---------------------------------------------------------------- versions identify content

  lemma VersionStep(v: Vault, step: Step, id: nat)
    requires IdsOk(v) && Legal(v, step) && id in v.memories
    ensures id in Apply(v, step).0.memories
    ensures Apply(v, step).0.memories[id] == v.memories[id] ||
            v.memories[id].updatedAt < Apply(v, step).0.memories[id].updatedAt
  {
    hide Compiled, PreviewOf, PreviewContext, PreviewedRow, SnapshotIsCurrent, DisclosureContext, Parses,
         EvaluateForClient, Deliverable, Granted, PermittedOf, PreviewEvents, Approvable;
  }

  /** A memory whose version is what it was has the content it had. */
  lemma {:induction false} VersionFixesContent(states: seq<Vault>, steps: seq<Step>, id: nat, i: nat, j: nat)
    requires Run(states, steps) && i <= j < |states| && id in states[i].memories
    ensures id in states[j].memories
    ensures states[i].memories[id].updatedAt <= states[j].memories[id].updatedAt
    ensures states[i].memories[id].updatedAt == states[j].memories[id].updatedAt ==>
              states[i].memories[id] == states[j].memories[id]
  {
    hide Apply, Legal, RowsOk, AuditAgrees;
    if i < j {
      VersionFixesContent(states, steps, id, i, j - 1);
      Reachable(states, steps, j - 1);
      VersionStep(states[j - 1], steps[j - 1], id);
    }
  }

  // ---------------------------------------------------------------- end-to-end integrity

  /** The client's live policy and registration are the ones the snapshot was shown under. */
  predicate SameAuthority(v: Vault, clientId: nat, shown: Snapshot) {
    && clientId in v.clients && clientId in v.policies
    && Some(ClientRevision(clientId, v.clients[clientId])) == shown.clientVersion
    && Some(v.policies[clientId].id) == shown.policyId
    && Some(v.policies[clientId].updatedAt) == shown.policyVersion
  }

  /** The item is the memory's current compiled text, unchanged since `before`, and permitted right now. */
  predicate ItemStands(item: Item, before: Vault, now: Vault, clientId: nat, tokenBudget: int) {
    && item.memoryId in before.memories && item.memoryId in now.memories
    && now.memories[item.memoryId] == before.memories[item.memoryId]
    && item.text == MemoryText(now.memories[item.memoryId], tokenBudget)
    && clientId in now.policies
    && Permits(now.policies[clientId], now.memories[item.memoryId], now.now)
  }

  /**
   * What a delivery at `now` owes to the approval `approve` made at `before`: the items are the owner's
   * selection from the preview whose revision was submitted, nothing more and nothing less; each is the
   * current text of a permitted memory; authority is unchanged; and the approval is still in time.
   */
  ghost predicate Justified(before: Vault, approve: Step, now: Vault, clientId: nat, items: seq<Item>) {
    && approve.Approve? && approve.id in before.requests
    && Approvable(before, approve.id, approve.revision, approve.memoryIds, approve.hits)
    && items == Selection(approve.revision.snapshot.items, ToSet(approve.memoryIds))
    && ToSet(ItemIds(items)) == ToSet(approve.memoryIds)
    && (forall item :: item in items ==>
          ItemStands(item, before, now, clientId, before.requests[approve.id].tokenBudget))
    && SameAuthority(now, clientId, approve.revision.snapshot)
    && now.now < before.now + APPROVAL_TTL_MS
  }

  lemma {:induction false} FullSelection(items: seq<Item>, ids: set<nat>)
    requires DistinctItems(items) && |Selection(items, ids)| == |ids|
    ensures ToSet(ItemIds(Selection(items, ids))) == ids
  {
    SelectionDistinct(items, ids);
    var chosen := Selection(items, ids);
    assert forall i :: 0 <= i < |chosen| ==> chosen[i] in chosen;
    var found := ToSet(ItemIds(chosen));
    assert found <= ids;
    DistinctCardinality(ItemIds(chosen));
    assert |ids - found| == 0;
  }

  lemma {:induction false} DistinctCardinality(xs: seq<nat>)
    requires Distinct(xs)
    ensures |ToSet(xs)| == |xs|
  {
    if xs != [] {
      DistinctCardinality(xs[1..]);
      assert forall i :: 0 <= i < |xs[1..]| ==> xs[1..][i] == xs[i + 1];
      assert xs[0] !in ToSet(xs[1..]);
      assert ToSet(xs) == {xs[0]} + ToSet(xs[1..]);
    }
  }

  /** What being deliverable says about authority and each item. */
  lemma DeliverableMeans(v: Vault, id: nat)
    requires Deliverable(v, id)
    ensures v.requests[id].approvalExpiresAt.Some? && v.now < v.requests[id].approvalExpiresAt.value
    ensures SameAuthority(v, v.requests[id].clientId, v.requests[id].snapshot.value)
    ensures forall item :: item in v.requests[id].snapshot.value.items ==>
              item.memoryId in v.memories && item.memoryId in v.requests[id].snapshot.value.versions &&
              v.memories[item.memoryId].updatedAt == v.requests[id].snapshot.value.versions[item.memoryId] &&
              Permits(v.policies[v.requests[id].clientId], v.memories[item.memoryId], v.now)
  {
  }

  lemma GrantStands(before: Vault, approve: Step, now: Vault, item: Item)
    requires RowsOk(before) && approve.Approve? && Legal(before, approve)
    requires GrantedBy(before, approve, approve.id, now) && Deliverable(now, approve.id)
    requires item in Selection(approve.revision.snapshot.items, ToSet(approve.memoryIds))
    requires item.memoryId in before.memories && item.memoryId in now.memories
    requires before.memories[item.memoryId].updatedAt == now.memories[item.memoryId].updatedAt ==>
               before.memories[item.memoryId] == now.memories[item.memoryId]
    ensures ItemStands(item, before, now, before.requests[approve.id].clientId, before.requests[approve.id].tokenBudget)
  {
    hide Permits, Compiled, PreviewContext, MustInvalidate, SnapshotIsCurrent, PreviewSnapshot, MemoryText, PreviewedRow;
    DeliverableMeans(now, approve.id);
    FreshPreview(before, approve.id, approve.hits);
    var shown := approve.revision.snapshot;
    assert shown == PreviewOf(before, approve.id, approve.hits).snapshot;
    SelectionDistinct(shown.items, ToSet(approve.memoryIds));
    assert item in shown.items;
    assert ShownItem(item, before, approve.id, approve.hits);
    var granted := Granted(shown, ToSet(approve.memoryIds));
    assert now.requests[approve.id].snapshot.value == granted && item in granted.items;
    assert granted.versions[item.memoryId] == shown.versions[item.memoryId];
  }

  /**
   * End-to-end disclosure integrity: in every run interleaved with owner edits and the clock, a delivery
   * goes back to one earlier approval of the same request that justifies it completely.
   */
  lemma DisclosureIntegrity(states: seq<Vault>, steps: seq<Step>, k: nat) returns (j: nat)
    requires Run(states, steps) && DeliversAt(states, steps, k)
    ensures j < k && steps[j].Approve? && steps[j].id == steps[k].id
    ensures Justified(states[j], steps[j], states[k], steps[k].clientId, Apply(states[k], steps[k]).1.items)
  {
    hide Permits, Compiled, PreviewContext, MustInvalidate, SnapshotIsCurrent, PreviewSnapshot, MemoryText, PreviewedRow,
         DisclosureContext, Parses;
    var id := steps[k].id;
    assert Deliverable(states[k], id);
    j := GrantOrigin(states, steps, id, k);
    var before, approve, now := states[j], steps[j], states[k];
    Reachable(states, steps, j);
    assert Legal(before, approve);
    FreshPreview(before, id, approve.hits);
    FullSelection(approve.revision.snapshot.items, ToSet(approve.memoryIds));
    DeliverableMeans(now, id);
    var items := Apply(now, steps[k]).1.items;
    forall item | item in items
      ensures ItemStands(item, before, now, steps[k].clientId, before.requests[id].tokenBudget)
    {
      SelectionDistinct(approve.revision.snapshot.items, ToSet(approve.memoryIds));
      assert ShownItem(item, before, id, approve.hits);
      VersionFixesContent(states, steps, item.memoryId, j, k);
      GrantStands(before, approve, now, item);
    }
  }

  // ---------------------------------------------------------------- preview and retrieval agree

  lemma {:induction false} NothingEligible(hits: seq<Hit>, context: Context)
    requires context.memories == map[]
    ensures Eligible(hits, context) == []
  {
    if hits != [] {
      NothingEligible(hits[1..], context);
    }
  }

  /**
   * Previewing an approved request changes nothing, offers no second approval, and shows the granted
   * items exactly when retrieving from the same state would deliver them.
   */
  lemma ApprovedPreviewAgrees(v: Vault, id: nat, hits: seq<Hit>)
    requires id in v.requests && v.requests[id].status == Approved && RowOk(v.requests[id])
    ensures AfterPreview(v, id, hits) == v
    ensures !PreviewOf(v, id, hits).canApprove
    ensures PreviewOf(v, id, hits).approvalExpired <==> v.requests[id].approvalExpiresAt.value <= v.now
    ensures PreviewOf(v, id, hits).items != [] <==> RetrieveStep(v, v.requests[id].clientId, id).1.Delivered?
    ensures RetrieveStep(v, v.requests[id].clientId, id).1.Delivered? ==>
              PreviewOf(v, id, hits).items == RetrieveStep(v, v.requests[id].clientId, id).1.items
  {
    hide SnapshotIsCurrent, EvaluateForClient, Permits, RevisionOf;
    var r := v.requests[id];
    assert v.requests[id := r] == v.requests;
    assert v.events + [] == v.events;
    if !Parses(r.snapshot) {
      NothingEligible(hits, PreviewContext(v, r, hits));
    } else if SnapshotIsCurrent(v.now, r, r.snapshot.value, PreviewContext(v, r, hits)) {
      InTime(v, id);
    }
  }

  lemma InTime(v: Vault, id: nat)
    requires Deliverable(v, id)
    ensures v.requests[id].approvalExpiresAt.Some? && v.requests[id].approvalExpiresAt.value > v.now
  {
  }

  // ---------------------------------------------------------------- an approval left alone is delivered

  predicate QuietStep(step: Step) {
    step.PreviewIt? || step.Tick?
  }

  /** Previews (of any request) and clock ticks leave an approved row and every permission as they were. */
  lemma QuietKeeps(v: Vault, step: Step, id: nat)
    requires QuietStep(step) && id in v.requests && v.requests[id].status == Approved
    ensures id in Apply(v, step).0.requests && Apply(v, step).0.requests[id] == v.requests[id]
    ensures SameTables(v, Apply(v, step).0) && v.now <= Apply(v, step).0.now
  {
    hide PreviewOf, PreviewContext, PreviewedRow, PreviewEvents;
    if step.PreviewIt? && step.id in v.requests {
      PreviewKeepsStatus(v, v.requests[step.id], step.hits);
    }
  }

  predicate SameTables(v: Vault, w: Vault) {
    v.memories == w.memories && v.policies == w.policies && v.clients == w.clients
  }

  lemma {:induction false} QuietInterval(states: seq<Vault>, steps: seq<Step>, id: nat, i: nat, k: nat)
    requires Run(states, steps) && i <= k < |states|
    requires id in states[i].requests && states[i].requests[id].status == Approved
    requires forall t :: i <= t < k ==> QuietStep(steps[t])
    ensures id in states[k].requests && states[k].requests[id] == states[i].requests[id]
    ensures SameTables(states[i], states[k]) && states[i].now <= states[k].now
  {
    hide Apply, Legal;
    if i < k {
      QuietInterval(states, steps, id, i, k - 1);
      QuietKeeps(states[k - 1], steps[k - 1], id);
    }
  }

  /** An accepted approval leaves the row bound to the live policy version it was shown under. */
  lemma ApprovalBinds(v: Vault, step: Step)
    requires step.Approve? && Legal(v, step)
    requires Approvable(v, step.id, step.revision, step.memoryIds, step.hits)
    ensures var r := Apply(v, step).0.requests[step.id];
            SameAuthority(v, r.clientId, step.revision.snapshot) &&
            r.policyId == step.revision.snapshot.policyId && r.policyVersion == step.revision.snapshot.policyVersion &&
            EvaluateForClient(v.clients, v.policies, r.clientId, v.now).denial.None?
    ensures forall item :: item in Selection(step.revision.snapshot.items, ToSet(step.memoryIds)) ==>
              ShownItem(item, v, step.id, step.hits)
  {
    hide Permits, Compiled, Eligible, MemoryText;
    FreshPreview(v, step.id, step.hits);
    var items := PreviewOf(v, step.id, step.hits).snapshot.items;
    SelectionDistinct(items, ToSet(step.memoryIds));
    assert ShownItem(items[0], v, step.id, step.hits);
  }

  /** The condition a caller can check before retrieving: in time, policy and selected memories unexpired, no blank text. */
  predicate StillGood(v: Vault, clientId: nat, approvedAt: int, items: seq<Item>) {
    && v.now < approvedAt + APPROVAL_TTL_MS
    && (clientId in v.policies ==> Unexpired(v.policies[clientId].expiresAt, v.now))
    && forall item :: item in items ==>
         item.text != "" && (item.memoryId in v.memories ==> Unexpired(v.memories[item.memoryId].expiresAt, v.now))
  }

  /** Time denies a client only by expiring its policy. */
  lemma GateOverTime(clients: map<nat, Client>, policies: map<nat, Policy>, clientId: nat, before: int, after: int)
    requires EvaluateForClient(clients, policies, clientId, before).denial.None?
    ensures clientId in policies
    ensures EvaluateForClient(clients, policies, clientId, after).denial.None? <==>
            Unexpired(policies[clientId].expiresAt, after)
    ensures EvaluateForClient(clients, policies, clientId, after).policy == Some(policies[clientId])
  {
  }

  lemma ItemOverTime(item: Item, v: Vault, step: Step, now: Vault)
    requires step.Approve? && step.id in v.requests && v.requests[step.id].status != Approved
    requires ShownItem(item, v, step.id, step.hits) && SameTables(v, now) && v.now <= now.now
    requires v.requests[step.id].clientId in v.policies
    ensures Permits(v.policies[v.requests[step.id].clientId], now.memories[item.memoryId], now.now) <==>
            Unexpired(now.memories[item.memoryId].expiresAt, now.now)
  {
    hide Compiled, MemoryText, PreviewSnapshot;
    var policy := v.policies[v.requests[step.id].clientId];
    assert Permits(policy, v.memories[item.memoryId], v.now);
    PermitsOverTime(policy, v.memories[item.memoryId], v.now, now.now);
  }

  /** Each granted item is current again exactly when its memory has not expired and the policy still speaks. */
  lemma ItemStillCurrent(item: Item, v: Vault, step: Step, now: Vault)
    requires step.Approve? && Legal(v, step)
    requires Approvable(v, step.id, step.revision, step.memoryIds, step.hits)
    requires GrantedBy(v, step, step.id, now) && SameTables(v, now) && v.now <= now.now
    requires now.requests[step.id].policyId == step.revision.snapshot.policyId
    requires item in now.requests[step.id].snapshot.value.items
    requires ShownItem(item, v, step.id, step.hits)
    requires SameAuthority(v, v.requests[step.id].clientId, step.revision.snapshot)
    requires EvaluateForClient(v.clients, v.policies, v.requests[step.id].clientId, v.now).denial.None?
    ensures ItemIsCurrent(item, now.requests[step.id].snapshot.value,
              DisclosureContext(now, now.requests[step.id], ItemIds(now.requests[step.id].snapshot.value.items)))
        <==> Unexpired(now.policies[v.requests[step.id].clientId].expiresAt, now.now) &&
             Unexpired(now.memories[item.memoryId].expiresAt, now.now)
  {
    hide Compiled, MemoryText, PreviewSnapshot, PreviewContext, EvaluateForClient, Permits, PreviewedRow;
    var r := now.requests[step.id];
    var items := r.snapshot.value.items;
    GateOverTime(now.clients, now.policies, r.clientId, v.now, now.now);
    ItemOverTime(item, v, step, now);
    var i :| 0 <= i < |items| && items[i] == item;
    assert ItemIds(items)[i] == item.memoryId;
    assert item.memoryId in r.snapshot.value.versions;
    assert r.snapshot.value.versions[item.memoryId] == step.revision.snapshot.versions[item.memoryId];
  }

  lemma DeliverableIff(v: Vault, step: Step, now: Vault)
    requires step.Approve? && Legal(v, step) && step.id in v.requests
    requires Approvable(v, step.id, step.revision, step.memoryIds, step.hits)
    requires now.requests[step.id := Apply(v, step).0.requests[step.id]] == now.requests
    requires SameTables(v, now) && v.now <= now.now
    ensures Deliverable(now, step.id) <==>
            StillGood(now, v.requests[step.id].clientId, v.now, Selection(step.revision.snapshot.items, ToSet(step.memoryIds)))
  {
    hide Compiled, MemoryText, PreviewSnapshot, PreviewContext, EvaluateForClient, Permits, PreviewedRow, DisclosureContext,
         ItemIsCurrent, ShownItem, Approvable, PreviewEvents;
    ApproveGrants(v, step);
    ApprovalBinds(v, step);
    var r := now.requests[step.id];
    var items := Selection(step.revision.snapshot.items, ToSet(step.memoryIds));
    var context := DisclosureContext(now, r, ItemIds(items));
    assert r == Apply(v, step).0.requests[step.id];
    assert GrantedBy(v, step, step.id, now);
    GateOverTime(now.clients, now.policies, r.clientId, v.now, now.now);
    ContextAuthority(now, r, ItemIds(items));
    forall item | item in items
      ensures item.estimatedTokens >= 1 && item.relevanceScore >= 0.0 && item.memoryId in now.memories
      ensures ItemIsCurrent(item, r.snapshot.value, context)
          <==> Unexpired(now.policies[r.clientId].expiresAt, now.now) &&
               Unexpired(now.memories[item.memoryId].expiresAt, now.now)
    {
      ShownFacts(item, v, step.id, step.hits);
      ItemStillCurrent(item, v, step, now);
    }
    SelectionNotEmpty(v, step);
    assert items[0] in items;
  }

  lemma ShownFacts(item: Item, v: Vault, id: nat, hits: seq<Hit>)
    requires id in v.requests && ShownItem(item, v, id, hits)
    ensures item.estimatedTokens >= 1 && item.relevanceScore >= 0.0 && item.memoryId in v.memories
  {
  }

  lemma SelectionNotEmpty(v: Vault, step: Step)
    requires step.Approve? && Legal(v, step)
    requires Approvable(v, step.id, step.revision, step.memoryIds, step.hits)
    ensures Selection(step.revision.snapshot.items, ToSet(step.memoryIds)) != []
  {
    hide PreviewSnapshot, PreviewContext;
    assert step.memoryIds[0] in ToSet(step.memoryIds);
  }

  lemma ContextAuthority(v: Vault, r: Request, ids: seq<nat>)
    ensures DisclosureContext(v, r, ids).client == EvaluateForClient(v.clients, v.policies, r.clientId, v.now).client
    ensures DisclosureContext(v, r, ids).policy == EvaluateForClient(v.clients, v.policies, r.clientId, v.now).policy
    ensures DisclosureContext(v, r, ids).policyVersion
         == PolicyVersion(EvaluateForClient(v.clients, v.policies, r.clientId, v.now))
    ensures DisclosureContext(v, r, ids).bound <==>
            r.policyId.Some? && r.policyId == PolicyId(EvaluateForClient(v.clients, v.policies, r.clientId, v.now))
    ensures r.clientId in v.clients ==>
              EvaluateForClient(v.clients, v.policies, r.clientId, v.now).client == Some(v.clients[r.clientId])
  {
  }

  /**
   * An approval followed only by previews and clock ticks is delivered, in full, exactly when it is
   * retrieved in time, the policy and the selected memories have not expired, and no selected text is blank.
   */
  lemma ApprovalDeliveredIff(states: seq<Vault>, steps: seq<Step>, j: nat, k: nat)
    requires Run(states, steps) && j < k < |steps|
    requires steps[j].Approve? && Apply(states[j], steps[j]).1.Done?
    requires forall t :: j < t < k ==> QuietStep(steps[t])
    requires steps[k].Retrieve? && steps[k].id == steps[j].id
    requires steps[j].id in states[j].requests && steps[k].clientId == states[j].requests[steps[j].id].clientId
    ensures Apply(states[k], steps[k]).1.Delivered? <==>
            StillGood(states[k], steps[k].clientId, states[j].now,
                      Selection(steps[j].revision.snapshot.items, ToSet(steps[j].memoryIds)))
    ensures Apply(states[k], steps[k]).1.Delivered? ==>
            Apply(states[k], steps[k]).1.items
            == Selection(steps[j].revision.snapshot.items, ToSet(steps[j].memoryIds))
  {
    hide Compiled, PreviewSnapshot, PreviewContext, EvaluateForClient, PreviewedRow, DisclosureContext, Granted,
         SnapshotIsCurrent, Parses, StillGood, Approvable, PreviewEvents, PreviewOf;
    var v, approve := states[j], steps[j];
    var id := approve.id;
    assert Legal(v, approve) && states[j + 1] == Apply(v, approve).0;
    assert Approvable(v, id, approve.revision, approve.memoryIds, approve.hits);
    ApproveGrants(v, approve);
    assert SameTables(v, states[j + 1]) && states[j + 1].now == v.now;
    QuietInterval(states, steps, id, j + 1, k);
    var now := states[k];
    assert now.requests[id := Apply(v, approve).0.requests[id]] == now.requests;
    DeliverableIff(v, approve, now);
    RetrieveDelivers(now, steps[k]);
    GrantedItems(approve);
  }

  lemma RetrieveDelivers(v: Vault, step: Step)
    requires step.Retrieve? && step.id in v.requests && v.requests[step.id].clientId == step.clientId
    ensures Apply(v, step).1.Delivered? <==> Deliverable(v, step.id)
    ensures Deliverable(v, step.id) ==> Apply(v, step).1.items == v.requests[step.id].snapshot.value.items
  {
    hide DisclosureContext;
  }

  lemma GrantedItems(approve: Step)
    requires approve.Approve?
    ensures Granted(approve.revision.snapshot, ToSet(approve.memoryIds)).items
         == Selection(approve.revision.snapshot.items, ToSet(approve.memoryIds))
  {
  }

  // ---------------------------------------------------------------- requests fulfilled at once

  predicate HitFor(c: Candidate, hits: seq<Hit>) {
    exists hit :: hit in hits && hit.id == c.id
  }

  lemma {:induction false} CurrentFrom(v: Vault, hits: seq<Hit>)
    ensures forall c :: c in Current(v, hits) ==>
              c.id in v.memories && HitFor(c, hits) && c == CandidateOf(c.id, v.memories[c.id], c.relevanceScore)
  {
    hide CandidateOf;
    if hits != [] {
      CurrentFrom(v, hits[1..]);
      assert hits == [hits[0]] + hits[1..];
      if hits[0].id in v.memories {
        CandidateIs(hits[0].id, v, hits[0].score);
      }
      forall c | c in Current(v, hits)
        ensures HitFor(c, hits)
      {
        if c in Current(v, hits[1..]) {
          var hit :| hit in hits[1..] && hit.id == c.id;
          assert hit in hits;
        } else {
          assert hits[0] in hits && hits[0].id == c.id;
        }
      }
    }
  }

  lemma CandidateIs(id: nat, v: Vault, score: real)
    requires id in v.memories
    ensures CandidateOf(id, v.memories[id], score).id == id
    ensures CandidateOf(id, v.memories[id], score).relevanceScore == score
  {
  }

  lemma {:induction false} CurrentCovers(v: Vault, hits: seq<Hit>, hit: Hit)
    requires hit in hits && hit.id in v.memories
    ensures CandidateOf(hit.id, v.memories[hit.id], hit.score) in Current(v, hits)
  {
    if hit != hits[0] {
      assert hit in hits[1..];
      CurrentCovers(v, hits[1..], hit);
    }
  }

  lemma {:induction false} CurrentDistinct(v: Vault, hits: seq<Hit>)
    requires RetrievalHits(hits)
    ensures DistinctBy(Current(v, hits), CandidateId)
  {
    hide DistinctBy, CandidateOf;
    if hits == [] {
      NoneDistinct();
    } else {
      CurrentDistinct(v, hits[1..]);
      CurrentFrom(v, hits[1..]);
      if hits[0].id in v.memories {
        CandidateIs(hits[0].id, v, hits[0].score);
        DistinctCons(CandidateOf(hits[0].id, v.memories[hits[0].id], hits[0].score), Current(v, hits[1..]), CandidateId);
      } else {
        assert Current(v, hits) == Current(v, hits[1..]);
      }
    }
  }

  lemma NoneDistinct()
    ensures DistinctBy([], CandidateId)
  {
  }

  /** Retrieval found a memory that the policy permits right now. */
  predicate FindsPermitted(v: Vault, policy: Policy, hits: seq<Hit>) {
    exists hit :: hit in hits && hit.id in v.memories && Permits(policy, v.memories[hit.id], v.now)
  }

  lemma PermittedFound(v: Vault, policy: Policy, hits: seq<Hit>)
    ensures PermittedOf(v, policy, Current(v, hits)) != [] <==> FindsPermitted(v, policy, hits)
  {
    hide Permits, CandidateOf;
    var p := (c: Candidate) => c.id in v.memories && Permits(policy, v.memories[c.id], v.now);
    var allowed := PermittedOf(v, policy, Current(v, hits));
    FilterMembers(Current(v, hits), p);
    CurrentFrom(v, hits);
    if allowed != [] {
      assert allowed[0] in allowed && HitFor(allowed[0], hits);
    }
    if FindsPermitted(v, policy, hits) {
      var hit :| hit in hits && hit.id in v.memories && Permits(policy, v.memories[hit.id], v.now);
      CurrentCovers(v, hits, hit);
      CandidateIs(hit.id, v, hit.score);
      assert CandidateOf(hit.id, v.memories[hit.id], hit.score) in allowed;
    }
  }

  /**
   * A request is fulfilled at once exactly when the client may read, before retrieval and now, some retrieved
   * memory is permitted and the policy asks for no confirmation; it waits for review when it does ask.
   */
  lemma DecisionIff(v: Vault, step: Step)
    requires step.Create?
    ensures var live := EvaluateForClient(v.clients, v.policies, step.clientId, v.now);
            var granted := step.early.denial.None? && live.denial.None? && FindsPermitted(v, live.policy.value, step.hits);
            && (Apply(v, step).1.Delivered? <==> granted && !live.policy.value.requiresConfirmation)
            && (Apply(v, step).0.requests[step.id].status == NeedsUserApproval <==> granted && live.policy.value.requiresConfirmation)
            && (Apply(v, step).0.requests[step.id].status == Denied <==> !granted)
  {
    hide Compiled, Permits, FindsPermitted, PermittedOf, Current;
    var live := EvaluateForClient(v.clients, v.policies, step.clientId, v.now);
    if live.denial.None? {
      PermittedFound(v, live.policy.value, step.hits);
    }
  }

  /** What a permitted memory contributes to a bundle that is delivered without review. */
  predicate DeliveredItem(item: Item, v: Vault, policy: Policy, tokenBudget: int) {
    && item.memoryId in v.memories
    && Permits(policy, v.memories[item.memoryId], v.now)
    && item.text == MemoryText(v.memories[item.memoryId], tokenBudget)
  }

  /** A request fulfilled at once delivers current texts of permitted memories, each once and within the budget. */
  lemma DirectDelivery(v: Vault, step: Step)
    requires step.Create? && Legal(v, step) && Apply(v, step).1.Delivered?
    ensures step.clientId in v.policies && DistinctItems(Apply(v, step).1.items)
    ensures step.tokenBudget >= 1 ==> Total(Apply(v, step).1.items) <= step.tokenBudget
    ensures forall item :: item in Apply(v, step).1.items ==> DeliveredItem(item, v, v.policies[step.clientId], step.tokenBudget)
  {
    hide Compiled, Permits, ItemOf, Total, Current, DistinctBy, DeliveredItem;
    var policy := v.policies[step.clientId];
    var p := (c: Candidate) => c.id in v.memories && Permits(policy, v.memories[c.id], v.now);
    var allowed := PermittedOf(v, policy, Current(v, step.hits));
    CurrentFrom(v, step.hits);
    CurrentDistinct(v, step.hits);
    FilterMembers(Current(v, step.hits), p);
    FilterDistinctBy(Current(v, step.hits), p, CandidateId);
    CompiledFrom(allowed, step.tokenBudget);
    if step.tokenBudget >= 1 {
      BundleGuarantee(allowed, step.tokenBudget);
    }
    forall item | item in Apply(v, step).1.items
      ensures DeliveredItem(item, v, policy, step.tokenBudget)
    {
      var c :| c in allowed && item == ItemOf(c, step.tokenBudget);
      DirectItem(item, v, policy, step.tokenBudget, c);
    }
  }

  lemma DirectItem(item: Item, v: Vault, policy: Policy, tokenBudget: int, c: Candidate)
    requires c.id in v.memories && c == CandidateOf(c.id, v.memories[c.id], c.relevanceScore)
    requires Permits(policy, v.memories[c.id], v.now) && item == ItemOf(c, tokenBudget)
    ensures DeliveredItem(item, v, policy, tokenBudget)
  {
    hide Permits, Clip, RoundScore, EstimateTokens;
  }
}
