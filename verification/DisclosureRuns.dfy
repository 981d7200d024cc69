/** What every run of the disclosure lifecycle keeps. */
module DisclosureRuns {
  import opened Common
  import opened Bundles
  import opened Permissions
  import opened Disclosure

  // ---------------------------------------------------------------- runs

  predicate Empty(v: Vault) {
    v.memories == map[] && v.policies == map[] && v.clients == map[] && v.requests == map[] &&
    v.itemRows == [] && v.events == [] && v.usedIds == {}
  }

  /** Any interleaving of service calls, owner edits and clock ticks, starting from an empty vault. */
  ghost predicate Run(states: seq<Vault>, steps: seq<Step>) {
    && |states| == |steps| + 1
    && Empty(states[0])
    && forall i :: 0 <= i < |steps| ==> Legal(states[i], steps[i]) && states[i + 1] == Apply(states[i], steps[i]).0
  }

  // ---------------------------------------------------------------- request rows

  predicate DistinctItems(items: seq<Item>) {
    DistinctBy(items, ItemMemory)
  }

  /** Only an approved row holds a snapshot, and then a non-empty duplicate-free one with a deadline. */
  predicate RowOk(r: Request) {
    if r.status == Approved then
      r.snapshot.Some? && r.approvalExpiresAt.Some? && r.snapshot.value.items != [] &&
      DistinctItems(r.snapshot.value.items)
    else r.snapshot.None? && (r.status == NeedsUserApproval ==> r.approvalExpiresAt.None?)
  }

  predicate RowsOk(v: Vault) {
    forall id :: id in v.requests ==> RowOk(v.requests[id])
  }

  lemma {:induction false} EligibleFrom(hits: seq<Hit>, context: Context)
    ensures forall c :: c in Eligible(hits, context) ==>
              c.id in context.memories && c.id in context.allowed && c.id in HitIds(hits) &&
              c == CandidateOf(c.id, context.memories[c.id], c.relevanceScore)
    ensures RetrievalHits(hits) ==> DistinctIds(Eligible(hits, context))
    ensures RetrievalHits(hits) ==> forall c :: c in Eligible(hits, context) ==> c.relevanceScore >= 0.0
  {
    if hits != [] {
      EligibleFrom(hits[1..], context);
      assert forall i :: 0 <= i < |hits[1..]| ==> HitIds(hits)[i + 1] == HitIds(hits[1..])[i];
      var rest := Eligible(hits[1..], context);
      if RetrievalHits(hits) {
        assert forall c :: c in rest ==> c.id != hits[0].id;
        assert HitIds(hits)[0] == hits[0].id;
      }
      assert HitIds(hits)[0] == hits[0].id;
    }
  }

  /** What a preview of an unapproved request shows comes from live allowed memories, each once. */
  lemma FreshPreview(v: Vault, id: nat, hits: seq<Hit>)
    requires id in v.requests && v.requests[id].status != Approved && RetrievalHits(hits)
    ensures DistinctItems(PreviewOf(v, id, hits).snapshot.items)
    ensures forall item :: item in PreviewOf(v, id, hits).snapshot.items ==>
              ShownItem(item, v, id, hits)
  {
    hide ItemOf, Compiled, Permits, RevisionOf, MustInvalidate;
    var context := PreviewContext(v, v.requests[id], hits);
    var eligible := Eligible(hits, context);
    EligibleFrom(hits, context);
    CompiledFrom(eligible, v.requests[id].tokenBudget);
    forall item | item in PreviewOf(v, id, hits).snapshot.items
      ensures ShownItem(item, v, id, hits)
    {
      var c :| c in eligible && item == ItemOf(c, v.requests[id].tokenBudget);
      assert c.id in CandidateIds(eligible);
      ShownFrom(item, v, id, hits, c);
    }
  }

  /** The compiled text of a memory under a budget. */
  function MemoryText(m: Memory, tokenBudget: int): string {
    ItemText(CandidateOf(0, m, 0.0), tokenBudget)
  }

  /** A shown item is a live memory's compiled text under that memory's current version. */
  predicate ShownItem(item: Item, v: Vault, id: nat, hits: seq<Hit>)
    requires id in v.requests
  {
    && item.memoryId in PreviewContext(v, v.requests[id], hits).allowed
    && item.memoryId in v.memories
    && item.memoryId in PreviewOf(v, id, hits).snapshot.versions
    && PreviewOf(v, id, hits).snapshot.versions[item.memoryId] == v.memories[item.memoryId].updatedAt
    && item.text == MemoryText(v.memories[item.memoryId], v.requests[id].tokenBudget)
    && item.estimatedTokens == EstimateTokens(item.text)
    && item.relevanceScore >= 0.0
  }

  lemma RoundsUp(score: real)
    requires score >= 0.0
    ensures RoundScore(score) >= 0.0
  {
  }

  lemma ShownFrom(item: Item, v: Vault, id: nat, hits: seq<Hit>, c: Candidate)
    requires id in v.requests && v.requests[id].status != Approved
    requires item == ItemOf(c, v.requests[id].tokenBudget) && c.relevanceScore >= 0.0
    requires c in Eligible(hits, PreviewContext(v, v.requests[id], hits))
    requires c.id in PreviewContext(v, v.requests[id], hits).allowed
    requires c.id in PreviewContext(v, v.requests[id], hits).memories
    requires c == CandidateOf(c.id, PreviewContext(v, v.requests[id], hits).memories[c.id], c.relevanceScore)
    requires c.id in CandidateIds(Eligible(hits, PreviewContext(v, v.requests[id], hits)))
    ensures ShownItem(item, v, id, hits)
  {
    hide Compiled, Permits, RevisionOf, MustInvalidate, Eligible, Clip, RoundScore, EstimateTokens;
    RoundsUp(c.relevanceScore);
  }

  lemma {:induction false} SelectionDistinct(items: seq<Item>, ids: set<nat>)
    requires DistinctItems(items)
    ensures DistinctItems(Selection(items, ids))
    ensures forall item :: item in Selection(items, ids) <==> item in items && item.memoryId in ids
  {
    var p := (item: Item) => item.memoryId in ids;
    if items != [] {
      SelectionDistinct(items[1..], ids);
      assert items == [items[0]] + items[1..];
      var rest := Selection(items[1..], ids);
      assert forall item :: item in rest ==> item in items[1..];
      assert forall item :: item in items[1..] ==> item.memoryId != items[0].memoryId;
    }
  }

  /** Approval keeps the row shape: a non-empty selection of distinct items. */
  lemma ApproveKeepsRow(v: Vault, step: Step)
    requires step.Approve? && Legal(v, step)
    requires Approvable(v, step.id, step.revision, step.memoryIds, step.hits)
    ensures RowOk(Apply(v, step).0.requests[step.id])
  {
    hide Compiled, PreviewSnapshot, PreviewContext, MustInvalidate, Eligible, PreviewEvents;
    FreshPreview(v, step.id, step.hits);
    SelectionDistinct(PreviewOf(v, step.id, step.hits).snapshot.items, ToSet(step.memoryIds));
    assert step.memoryIds[0] in ToSet(step.memoryIds);
  }

  lemma StepKeepsRows(v: Vault, step: Step)
    requires RowsOk(v) && Legal(v, step)
    ensures RowsOk(Apply(v, step).0)
  {
    hide Compiled, PreviewOf, PreviewContext, MustInvalidate, PreviewEvents, Approvable, SnapshotIsCurrent,
         DisclosureContext, Parses, EvaluateForClient, Deliverable, RowOk;
    RowShapes(v, step);
    match step
    case Approve(id, revision, memoryIds, hits) =>
      if Approvable(v, id, revision, memoryIds, hits) {
        ApproveKeepsRow(v, step);
      }
    case _ =>
  }

  /** Every other row a step writes is a created row, an unchanged row, or one without a snapshot. */
  lemma RowShapes(v: Vault, step: Step)
    ensures forall r: Request ::
      r.status != Approved && r.snapshot.None? && (r.status == NeedsUserApproval ==> r.approvalExpiresAt.None?) ==> RowOk(r)
    ensures forall r: Request, p :: RowOk(r) ==> RowOk(r.(policyId := p))
  {
  }

  // ---------------------------------------------------------------- audit agreement

  /** The memory ids of each disclosure event of a request, in order. */
  function DisclosuresOf(events: seq<Event>, id: nat): seq<seq<nat>> {
    if events == [] then []
    else
      (if events[0].kind == MemoryDisclosure && events[0].requestId == Some(id) then [events[0].memoryIds] else [])
      + DisclosuresOf(events[1..], id)
  }

  /** The memory ids of the stored item rows of a request, in order. */
  function RowIds(rows: seq<ItemRow>, id: nat): seq<nat> {
    if rows == [] then []
    else (if rows[0].requestId == id then [rows[0].item.memoryId] else []) + RowIds(rows[1..], id)
  }

  /**
   * A fulfilled request has exactly one disclosure event, and its item rows list exactly the ids in
   * that event; any other id has neither events nor rows.
   */
  ghost predicate AuditAgrees(v: Vault) {
    forall id: nat :: AuditAgreesFor(v, id)
  }

  predicate AuditAgreesFor(v: Vault, id: nat) {
    if id in v.requests && v.requests[id].status == Fulfilled
    then DisclosuresOf(v.events, id) == [RowIds(v.itemRows, id)]
    else DisclosuresOf(v.events, id) == [] && RowIds(v.itemRows, id) == []
  }

  lemma {:induction false} DisclosuresAppend(xs: seq<Event>, ys: seq<Event>, id: nat)
    ensures DisclosuresOf(xs + ys, id) == DisclosuresOf(xs, id) + DisclosuresOf(ys, id)
  {
    if xs == [] {
      assert [] + ys == ys;
    } else {
      assert (xs + ys)[1..] == xs[1..] + ys;
      DisclosuresAppend(xs[1..], ys, id);
      var first := if xs[0].kind == MemoryDisclosure && xs[0].requestId == Some(id) then [xs[0].memoryIds] else [];
      Associates(first, DisclosuresOf(xs[1..], id), DisclosuresOf(ys, id));
    }
  }

  lemma {:induction false} RowIdsAppend(xs: seq<ItemRow>, ys: seq<ItemRow>, id: nat)
    ensures RowIds(xs + ys, id) == RowIds(xs, id) + RowIds(ys, id)
  {
    if xs == [] {
      assert [] + ys == ys;
    } else {
      assert (xs + ys)[1..] == xs[1..] + ys;
      RowIdsAppend(xs[1..], ys, id);
      Associates(if xs[0].requestId == id then [xs[0].item.memoryId] else [], RowIds(xs[1..], id), RowIds(ys, id));
    }
  }

  lemma {:induction false} RowIdsOfRows(id: nat, items: seq<Item>, other: nat)
    ensures RowIds(Rows(id, items), other) == if other == id then ItemIds(items) else []
  {
    if items != [] {
      RowIdsOfRows(id, items[1..], other);
      assert Rows(id, items)[1..] == Rows(id, items[1..]);
      if other == id {
        assert ItemIds(items) == [items[0].memoryId] + ItemIds(items[1..]);
      }
    }
  }

  lemma {:induction false} ForgottenDisclosures(events: seq<Event>, kept: set<nat>, id: nat)
    ensures DisclosuresOf(ForgetRequests(events, kept), id) == if id in kept then DisclosuresOf(events, id) else []
  {
    if events != [] {
      ForgottenDisclosures(events[1..], kept, id);
      var rest := ForgetRequests(events[1..], kept);
      assert ForgetRequests(events, kept)[1..] == rest;
    }
  }

  lemma {:induction false} ForgottenRows(rows: seq<ItemRow>, requests: map<nat, Request>, id: nat)
    ensures RowIds(Filter(rows, (row: ItemRow) => row.requestId in requests), id)
         == if id in requests then RowIds(rows, id) else []
  {
    var p := (row: ItemRow) => row.requestId in requests;
    if rows != [] {
      ForgottenRows(rows[1..], requests, id);
      var rest := Filter(rows[1..], p);
      if p(rows[0]) {
        assert Filter(rows, p)[1..] == rest;
      } else {
        assert Filter(rows, p) == rest;
      }
    }
  }

  /** A transaction that touches one request and logs at most one disclosure, of that request. */
  lemma AuditFrame(v: Vault, w: Vault, id: nat, events: seq<Event>, items: seq<Item>)
    requires AuditAgrees(v)
    requires w.events == v.events + events && w.itemRows == v.itemRows + Rows(id, items)
    requires forall k :: k != id ==> (k in w.requests <==> k in v.requests)
    requires forall k :: k != id && k in v.requests ==> w.requests[k].status == v.requests[k].status
    requires forall k :: k != id ==> DisclosuresOf(events, k) == []
    requires id in w.requests && !(id in v.requests && v.requests[id].status == Fulfilled)
    requires if w.requests[id].status == Fulfilled then DisclosuresOf(events, id) == [ItemIds(items)]
             else DisclosuresOf(events, id) == [] && items == []
    ensures AuditAgrees(w)
  {
    forall k: nat
      ensures AuditAgreesFor(w, k)
    {
      assert AuditAgreesFor(v, k);
      DisclosuresAppend(v.events, events, k);
      RowIdsAppend(v.itemRows, Rows(id, items), k);
      RowIdsOfRows(id, items, k);
      if k == id {
        assert DisclosuresOf(w.events, k) == DisclosuresOf(events, k);
        assert RowIds(w.itemRows, k) == ItemIds(items);
      } else {
        assert DisclosuresOf(w.events, k) == DisclosuresOf(v.events, k);
        assert RowIds(w.itemRows, k) == RowIds(v.itemRows, k);
      }
    }
  }

  lemma NoDisclosure(events: seq<Event>, id: nat)
    requires forall e :: e in events ==> e.kind != MemoryDisclosure
    ensures DisclosuresOf(events, id) == []
  {
  }

  lemma QuietFrame(v: Vault, w: Vault, id: nat, events: seq<Event>)
    requires AuditAgrees(v)
    requires w.events == v.events + events && w.itemRows == v.itemRows
    requires forall e :: e in events ==> e.kind != MemoryDisclosure
    requires id in v.requests && id in w.requests
    requires forall k :: k != id ==> (k in w.requests <==> k in v.requests)
    requires forall k :: k != id && k in v.requests ==> w.requests[k].status == v.requests[k].status
    requires v.requests[id].status == w.requests[id].status ||
             (v.requests[id].status != Fulfilled && w.requests[id].status != Fulfilled)
    ensures AuditAgrees(w)
  {
    forall k: nat
      ensures AuditAgreesFor(w, k)
    {
      assert AuditAgreesFor(v, k);
      DisclosuresAppend(v.events, events, k);
      NoDisclosure(events, k);
    }
  }

  lemma CreateKeepsAudit(v: Vault, step: Step)
    requires AuditAgrees(v) && step.Create? && step.id !in v.requests
    ensures AuditAgrees(Apply(v, step).0)
  {
    hide Compiled, EvaluateForClient, PermittedOf, Current;
    var w := Apply(v, step).0;
    var r := w.requests[step.id];
    var items := if r.status == Fulfilled then Apply(v, step).1.items else [];
    var events :=
      if r.status == Fulfilled then [Event(MemoryDisclosure, Some(step.id), ItemIds(items))]
      else if r.status == Denied then [Event(RequestDenied, Some(step.id), [])]
      else [];
    AuditFrame(v, w, step.id, events, items);
  }

  lemma RetrieveKeepsAudit(v: Vault, step: Step)
    requires AuditAgrees(v) && step.Retrieve?
    ensures AuditAgrees(Apply(v, step).0)
  {
    hide SnapshotIsCurrent, DisclosureContext, Parses, Deliverable;
    var id := step.id;
    var w := Apply(v, step).0;
    if id in v.requests && v.requests[id].clientId == step.clientId && v.requests[id].status == Approved {
      if Apply(v, step).1.Delivered? {
        var items := Apply(v, step).1.items;
        AuditFrame(v, w, id, [Event(MemoryDisclosure, Some(id), ItemIds(items))], items);
      } else if w.events == v.events {
        assert v.events + [] == v.events;
        QuietFrame(v, w, id, []);
      } else {
        QuietFrame(v, w, id, [Event(RequestDenied, Some(id), [])]);
      }
    }
  }

  /** A preview never changes a status. */
  lemma PreviewKeepsStatus(v: Vault, r: Request, hits: seq<Hit>)
    ensures PreviewedRow(v, r, hits).status == r.status
    ensures PreviewedRow(v, r, hits).clientId == r.clientId && PreviewedRow(v, r, hits).tokenBudget == r.tokenBudget
    ensures r.status != NeedsUserApproval ==> PreviewedRow(v, r, hits) == r
  {
  }

  lemma PreviewKeepsAudit(v: Vault, id: nat, hits: seq<Hit>)
    requires AuditAgrees(v) && id in v.requests
    ensures AuditAgrees(AfterPreview(v, id, hits))
  {
    hide PreviewContext, MustInvalidate, PreviewedRow;
    PreviewKeepsStatus(v, v.requests[id], hits);
    QuietFrame(v, AfterPreview(v, id, hits), id, PreviewEvents(v, id, hits));
  }

  lemma ApproveKeepsAudit(v: Vault, step: Step)
    requires AuditAgrees(v) && step.Approve?
    ensures AuditAgrees(Apply(v, step).0)
  {
    hide PreviewOf, PreviewContext, MustInvalidate, Approvable, Granted, PreviewedRow;
    var id := step.id;
    var w := Apply(v, step).0;
    if id in v.requests && Approvable(v, id, step.revision, step.memoryIds, step.hits) {
      var events := PreviewEvents(v, id, step.hits) + [Event(RequestApproved, Some(id), step.memoryIds)];
      assert w.events == v.events + events;
      ApprovableNeedsReview(v, step);
      QuietFrame(v, w, id, events);
    }
  }

  lemma DenyKeepsAudit(v: Vault, id: nat)
    requires AuditAgrees(v)
    ensures AuditAgrees(DenyStep(v, id).0)
  {
    if id in v.requests && v.requests[id].status == NeedsUserApproval {
      QuietFrame(v, DenyStep(v, id).0, id, [Event(RequestDenied, Some(id), [])]);
    }
  }

  lemma ApprovableNeedsReview(v: Vault, step: Step)
    requires step.Approve? && Approvable(v, step.id, step.revision, step.memoryIds, step.hits)
    ensures v.requests[step.id].status == NeedsUserApproval
  {
  }

  lemma DropClientKeepsAudit(v: Vault, id: nat)
    requires AuditAgrees(v)
    ensures AuditAgrees(DropClientStep(v, id))
  {
    var w := DropClientStep(v, id);
    forall k: nat
      ensures AuditAgreesFor(w, k)
    {
      assert AuditAgreesFor(v, k);
      ForgottenDisclosures(v.events, w.requests.Keys, k);
      ForgottenRows(v.itemRows, w.requests, k);
    }
  }

  lemma StepKeepsAudit(v: Vault, step: Step)
    requires AuditAgrees(v) && v.requests.Keys <= v.usedIds && Legal(v, step)
    ensures AuditAgrees(Apply(v, step).0)
  {
    hide PreviewOf, Approvable, CreateStep, DenyStep, ApproveStep, RetrieveStep, AfterPreview;
    match step
    case Create(_, _, _, _, _) => CreateKeepsAudit(v, step);
    case PreviewIt(id, hits) => if id in v.requests { PreviewKeepsAudit(v, id, hits); }
    case Approve(_, _, _, _) => ApproveKeepsAudit(v, step);
    case Deny(id) => DenyKeepsAudit(v, id);
    case Retrieve(_, _) => RetrieveKeepsAudit(v, step);
    case DropClient(id) => DropClientKeepsAudit(v, id);
    case _ =>
      assert forall id: nat :: AuditAgreesFor(v, id) ==> AuditAgreesFor(Apply(v, step).0, id);
  }

  // ---------------------------------------------------------------- ids and versions

  /** Ids in use were handed out once, and no version lies in the future. */
  predicate IdsOk(v: Vault) {
    && v.memories.Keys <= v.usedIds && v.requests.Keys <= v.usedIds && v.clients.Keys <= v.usedIds
    && (forall id :: id in v.memories ==> v.memories[id].updatedAt <= v.now)
    && (forall id :: id in v.requests ==> v.requests[id].clientId in v.clients)
    && v.policies.Keys <= v.clients.Keys
  }

  lemma StepKeepsIds(v: Vault, step: Step)
    requires IdsOk(v) && Legal(v, step)
    ensures IdsOk(Apply(v, step).0)
    ensures v.now <= Apply(v, step).0.now
  {
    hide Compiled, PreviewOf, PreviewContext, MustInvalidate, PreviewEvents, Approvable, SnapshotIsCurrent,
         DisclosureContext, Parses, EvaluateForClient, Deliverable, Granted, PermittedOf;
  }

  ghost predicate Inv(v: Vault) {
    IdsOk(v) && RowsOk(v) && AuditAgrees(v)
  }

  /** Every reachable vault satisfies the invariant. */
  lemma {:induction false} Reachable(states: seq<Vault>, steps: seq<Step>, k: nat)
    requires Run(states, steps) && k < |states|
    ensures Inv(states[k])
  {
    if k > 0 {
      Reachable(states, steps, k - 1);
      StepKeepsIds(states[k - 1], steps[k - 1]);
      StepKeepsRows(states[k - 1], steps[k - 1]);
      StepKeepsAudit(states[k - 1], steps[k - 1]);
    }
  }
}
