/**
 * The disclosure request lifecycle of one owner: create, preview, approve a selection, retrieve once.
 * apps/api/src/memory-requests/{memory-requests.service,disclosure-review.service,disclosure-preview,
 * disclosure-snapshot,disclosure-context,disclosure-state}.ts.
 *
 * A Vault value holds the rows; every transaction is one function from Vault to Vault.
 */
module Disclosure {
  import opened Common
  import opened Bundles
  import opened Permissions

  const APPROVAL_TTL_MS: int := 15 * 60_000

  datatype Status = NeedsUserApproval | Approved | Denied | Fulfilled

  datatype Snapshot = Snapshot(
    items: seq<Item>,
    versions: map<nat, int>,
    policyId: Option<nat>,
    policyVersion: Option<int>,
    clientVersion: Option<ClientRevision>
  )

  /** The SHA-256 of the request id and the snapshot, as an injective constructor. */
  datatype Revision = Revision(requestId: nat, snapshot: Snapshot)

  datatype Request = Request(
    clientId: nat,
    tokenBudget: int,
    status: Status,
    policyId: Option<nat>,
    policyVersion: Option<int>,
    reason: Option<Reason>,
    approvalExpiresAt: Option<int>,
    snapshot: Option<Snapshot>
  )

  datatype EventType = MemoryDisclosure | RequestApproved | RequestDenied

  datatype Event = Event(kind: EventType, requestId: Option<nat>, memoryIds: seq<nat>)

  datatype ItemRow = ItemRow(requestId: nat, item: Item)

  datatype Vault = Vault(
    memories: map<nat, Memory>,
    policies: map<nat, Policy>,
    clients: map<nat, Client>,
    requests: map<nat, Request>,
    itemRows: seq<ItemRow>,
    events: seq<Event>,
    usedIds: set<nat>,
    now: int
  )

  /** A retrieval hit; only the id and the score survive into the transaction. */
  datatype Hit = Hit(id: nat, score: real)

  // ---------------------------------------------------------------- disclosure-context.ts

  datatype Context = Context(
    client: Option<Client>,
    policy: Option<Policy>,
    memories: map<nat, Memory>,
    allowed: set<nat>,
    bound: bool,
    policyVersion: Option<int>
  )

  function DisclosureContext(v: Vault, r: Request, ids: seq<nat>): Context {
    var gate := EvaluateForClient(v.clients, v.policies, r.clientId, v.now);
    var memories :=
      if gate.denial.Some? || r.policyId.None? then map[]
      else map id | id in ids && id in v.memories :: v.memories[id];
    var bound := r.policyId.Some? && r.policyId == PolicyId(gate);
    var allowed :=
      if bound && gate.denial.None? then set id | id in memories && Permits(gate.policy.value, memories[id], v.now)
      else {};
    Context(gate.client, gate.policy, memories, allowed, bound, PolicyVersion(gate))
  }

  // ---------------------------------------------------------------- disclosure-snapshot.ts

  function RevisionOf(clientId: nat, client: Option<Client>): Option<ClientRevision> {
    if client.Some? then Some(ClientRevision(clientId, client.value)) else None
  }

  /** `snapshotSchema.safeParse` of the stored JSON; None is the empty object. */
  predicate Parses(snapshot: Option<Snapshot>) {
    snapshot.Some? &&
    forall item :: item in snapshot.value.items ==>
      item.text != "" && item.estimatedTokens >= 1 && item.relevanceScore >= 0.0
  }

  predicate ItemIsCurrent(item: Item, snapshot: Snapshot, context: Context) {
    && item.memoryId in context.allowed
    && item.memoryId in context.memories
    && item.memoryId in snapshot.versions
    && context.memories[item.memoryId].updatedAt == snapshot.versions[item.memoryId]
  }

  predicate SnapshotIsCurrent(now: int, r: Request, snapshot: Snapshot, context: Context) {
    && r.approvalExpiresAt.Some?
    && r.approvalExpiresAt.value > now
    && context.bound
    && r.policyId == snapshot.policyId
    && r.policyVersion == snapshot.policyVersion
    && context.policy.Some?
    && Some(context.policy.value.id) == snapshot.policyId
    && context.policyVersion == snapshot.policyVersion
    && RevisionOf(r.clientId, context.client) == snapshot.clientVersion
    && forall item :: item in snapshot.items ==> ItemIsCurrent(item, snapshot, context)
  }

  // ---------------------------------------------------------------- disclosure-state.ts

  function RequireFreshReview(r: Request, reason: Reason, policyVersion: Option<int>): Request {
    r.(status := NeedsUserApproval, reason := Some(reason), policyVersion := policyVersion,
       approvalExpiresAt := None, snapshot := None)
  }

  /** `invalidate`: a bound context also moves the row to the live policy version. */
  function Invalidated(r: Request, context: Context): Request {
    RequireFreshReview(r, PolicyChanged, if context.bound then context.policyVersion else r.policyVersion)
  }

  // ---------------------------------------------------------------- disclosure-preview.ts

  datatype Preview = Preview(
    snapshot: Snapshot,
    revision: Revision,
    items: seq<Item>,
    canApprove: bool,
    approvalExpired: bool
  )

  function CandidateOf(id: nat, m: Memory, score: real): Candidate {
    Candidate(id, m.title, m.body, m.sensitivity, m.categories, score)
  }

  /** The hits whose memory is live and allowed, in retrieval order. */
  function Eligible(hits: seq<Hit>, context: Context): seq<Candidate> {
    if hits == [] then []
    else
      var id := hits[0].id;
      (if id in context.memories && id in context.allowed
       then [CandidateOf(id, context.memories[id], hits[0].score)] else [])
      + Eligible(hits[1..], context)
  }

  function HitIds(hits: seq<Hit>): (ids: seq<nat>)
    ensures |ids| == |hits| && forall i :: 0 <= i < |ids| ==> ids[i] == hits[i].id
  {
    seq(|hits|, i requires 0 <= i < |hits| => hits[i].id)
  }

  function ItemIds(items: seq<Item>): (ids: seq<nat>)
    ensures |ids| == |items| && forall i :: 0 <= i < |ids| ==> ids[i] == items[i].memoryId
  {
    seq(|items|, i requires 0 <= i < |items| => items[i].memoryId)
  }

  function CandidateIds(cs: seq<Candidate>): (ids: set<nat>) {
    set c | c in cs :: c.id
  }

  /** The live context a preview reads: the granted items if approved, otherwise the hits. */
  function PreviewContext(v: Vault, r: Request, hits: seq<Hit>): Context {
    var ids :=
      if r.status == Approved then (if Parses(r.snapshot) then ItemIds(r.snapshot.value.items) else [])
      else HitIds(hits);
    DisclosureContext(v, r, ids)
  }

  predicate MustInvalidate(r: Request, context: Context) {
    r.status == NeedsUserApproval && r.policyId.Some? &&
    (!context.bound || r.policyVersion != context.policyVersion)
  }

  /** The request row a preview leaves behind. */
  function PreviewedRow(v: Vault, r: Request, hits: seq<Hit>): Request {
    var context := PreviewContext(v, r, hits);
    if MustInvalidate(r, context) then Invalidated(r, context) else r
  }

  function PreviewSnapshot(v: Vault, r: Request, hits: seq<Hit>): Snapshot {
    var context := PreviewContext(v, r, hits);
    var eligible := Eligible(hits, context);
    var current := Snapshot(
      Compiled(eligible, r.tokenBudget),
      map id | id in CandidateIds(eligible) && id in context.memories :: context.memories[id].updatedAt,
      if context.policy.Some? then Some(context.policy.value.id) else None,
      context.policyVersion,
      RevisionOf(r.clientId, context.client));
    if r.status == Approved && Parses(r.snapshot) then
      current.(items := if SnapshotIsCurrent(v.now, r, r.snapshot.value, context) then r.snapshot.value.items else [],
             versions := r.snapshot.value.versions)
    else current
  }

  function PreviewOf(v: Vault, id: nat, hits: seq<Hit>): Preview
    requires id in v.requests
  {
    var r := v.requests[id];
    var context := PreviewContext(v, r, hits);
    var snapshot := PreviewSnapshot(v, r, hits);
    Preview(
      snapshot,
      Revision(id, snapshot),
      snapshot.items,
      PreviewedRow(v, r, hits).status == NeedsUserApproval && context.bound && snapshot.items != [],
      r.status == Approved && (r.approvalExpiresAt.None? || r.approvalExpiresAt.value <= v.now))
  }

  function PreviewEvents(v: Vault, id: nat, hits: seq<Hit>): seq<Event>
    requires id in v.requests
  {
    if MustInvalidate(v.requests[id], PreviewContext(v, v.requests[id], hits))
    then [Event(RequestDenied, Some(id), [])] else []
  }

  // ---------------------------------------------------------------- transactions

  datatype Reply =
    | NotFound
    | Conflict
    | Done
    | Shown(preview: Preview)
    | Pending(status: Status, reason: Option<Reason>)
    | Delivered(items: seq<Item>, estimatedTokens: nat)

  function AfterPreview(v: Vault, id: nat, hits: seq<Hit>): Vault
    requires id in v.requests
  {
    v.(requests := v.requests[id := PreviewedRow(v, v.requests[id], hits)],
       events := v.events + PreviewEvents(v, id, hits))
  }

  function PreviewStep(v: Vault, id: nat, hits: seq<Hit>): (Vault, Reply) {
    if id !in v.requests then (v, NotFound)
    else (AfterPreview(v, id, hits), Shown(PreviewOf(v, id, hits)))
  }

  function DenyStep(v: Vault, id: nat): (Vault, Reply) {
    if id !in v.requests then (v, NotFound)
    else if v.requests[id].status != NeedsUserApproval then (v, Conflict)
    else
      (v.(requests := v.requests[id := v.requests[id].(status := Denied, snapshot := None)],
          events := v.events + [Event(RequestDenied, Some(id), [])]), Done)
  }

  function ToSet(ids: seq<nat>): set<nat> {
    set id | id in ids
  }

  function Selection(items: seq<Item>, ids: set<nat>): seq<Item> {
    Filter(items, (item: Item) => item.memoryId in ids)
  }

  /** The snapshot kept for a selection: its items and their versions only. */
  function Granted(snapshot: Snapshot, ids: set<nat>): Snapshot {
    var items := Selection(snapshot.items, ids);
    snapshot.(items := items,
              versions := map id | id in ToSet(ItemIds(items)) && id in snapshot.versions :: snapshot.versions[id])
  }

  /** Approval succeeds only for the exact preview revision and a selection inside it. */
  predicate Approvable(v: Vault, id: nat, revision: Revision, memoryIds: seq<nat>, hits: seq<Hit>) {
    && id in v.requests
    && v.requests[id].status == NeedsUserApproval
    && PreviewOf(v, id, hits).canApprove
    && PreviewOf(v, id, hits).revision == revision
    && |Selection(PreviewOf(v, id, hits).snapshot.items, ToSet(memoryIds))| == |ToSet(memoryIds)|
  }

  function ApproveStep(v: Vault, id: nat, revision: Revision, memoryIds: seq<nat>, hits: seq<Hit>): (Vault, Reply) {
    if id !in v.requests then (v, NotFound)
    else if !Approvable(v, id, revision, memoryIds, hits) then (v, Conflict)
    else
      var row := PreviewedRow(v, v.requests[id], hits).(
        status := Approved,
        approvalExpiresAt := Some(v.now + APPROVAL_TTL_MS),
        snapshot := Some(Granted(PreviewOf(v, id, hits).snapshot, ToSet(memoryIds))));
      (v.(requests := v.requests[id := row],
          events := v.events + PreviewEvents(v, id, hits) + [Event(RequestApproved, Some(id), memoryIds)]), Done)
  }

  function Rows(id: nat, items: seq<Item>): (rows: seq<ItemRow>)
    ensures |rows| == |items| && forall i :: 0 <= i < |rows| ==> rows[i] == ItemRow(id, items[i])
  {
    seq(|items|, i requires 0 <= i < |items| => ItemRow(id, items[i]))
  }

  /** Retrieval would deliver: the row is approved, parses, is in time and is still current. */
  predicate Deliverable(v: Vault, id: nat) {
    && id in v.requests
    && v.requests[id].status == Approved
    && Parses(v.requests[id].snapshot)
    && SnapshotIsCurrent(v.now, v.requests[id], v.requests[id].snapshot.value,
         DisclosureContext(v, v.requests[id], ItemIds(v.requests[id].snapshot.value.items)))
  }

  function RetrieveStep(v: Vault, clientId: nat, id: nat): (Vault, Reply) {
    if id !in v.requests || v.requests[id].clientId != clientId then (v, NotFound)
    else
      var r := v.requests[id];
      if r.status != Approved then (v, Pending(r.status, r.reason))
      else if !Parses(r.snapshot) || r.approvalExpiresAt.None? || r.approvalExpiresAt.value <= v.now then
        (v.(requests := v.requests[id := RequireFreshReview(r, ConfirmationRequired, r.policyVersion)]),
         Pending(NeedsUserApproval, Some(ConfirmationRequired)))
      else if !Deliverable(v, id) then
        var context := DisclosureContext(v, r, ItemIds(r.snapshot.value.items));
        (v.(requests := v.requests[id := Invalidated(r, context)],
            events := v.events + [Event(RequestDenied, Some(id), [])]),
         Pending(NeedsUserApproval, Some(PolicyChanged)))
      else
        var items := r.snapshot.value.items;
        (v.(requests := v.requests[id := r.(status := Fulfilled, reason := None, snapshot := None)],
            itemRows := v.itemRows + Rows(id, items),
            events := v.events + [Event(MemoryDisclosure, Some(id), ItemIds(items))]),
         Delivered(items, Total(items)))
  }

  // ---------------------------------------------------------------- memory-requests.service.ts

  /** Hits whose memory still exists when the request commits. */
  function Current(v: Vault, hits: seq<Hit>): seq<Candidate> {
    if hits == [] then []
    else (if hits[0].id in v.memories then [CandidateOf(hits[0].id, v.memories[hits[0].id], hits[0].score)] else [])
         + Current(v, hits[1..])
  }

  function PermittedOf(v: Vault, policy: Policy, cs: seq<Candidate>): seq<Candidate> {
    Filter(cs, (c: Candidate) => c.id in v.memories && Permits(policy, v.memories[c.id], v.now))
  }

  /** `early` is the gate read before retrieval; its denial is final, otherwise authority is re-read. */
  function CreateStep(v: Vault, id: nat, clientId: nat, tokenBudget: int, early: Gate, hits: seq<Hit>): (Vault, Reply) {
    var live := EvaluateForClient(v.clients, v.policies, clientId, v.now);
    var gate := if early.denial.Some? then early else live;
    var allowed := if gate.denial.Some? then [] else PermittedOf(v, gate.policy.value, Current(v, hits));
    var status :=
      if gate.denial.Some? || allowed == [] then Denied
      else if gate.policy.value.requiresConfirmation then NeedsUserApproval
      else Fulfilled;
    var reason :=
      if gate.denial.Some? then gate.denial
      else if Current(v, hits) == [] then Some(NoMatchingMemories)
      else if allowed == [] then Some(NoAllowedMemories)
      else if gate.policy.value.requiresConfirmation then Some(ConfirmationRequired)
      else None;
    var row := Request(clientId, tokenBudget, status, PolicyId(gate), PolicyVersion(gate), reason, None, None);
    var items := if status == Fulfilled then Compiled(allowed, tokenBudget) else [];
    var event :=
      if status == Fulfilled then [Event(MemoryDisclosure, Some(id), ItemIds(items))]
      else if status == Denied then [Event(RequestDenied, Some(id), [])]
      else [];
    (v.(requests := v.requests[id := row], itemRows := v.itemRows + Rows(id, items),
        events := v.events + event, usedIds := v.usedIds + {id}),
     if status == Fulfilled then Delivered(items, Total(items)) else Pending(status, reason))
  }

  // ---------------------------------------------------------------- owner edits and the clock

  /** Requests keep their rows when their policy goes; its id is set to null. */
  function ForgetPolicy(requests: map<nat, Request>, policyId: nat): map<nat, Request> {
    map id | id in requests ::
      if requests[id].policyId == Some(policyId) then requests[id].(policyId := None) else requests[id]
  }

  /** Audit events outlive their request; the reference is set to null. */
  function ForgetRequests(events: seq<Event>, kept: set<nat>): seq<Event> {
    if events == [] then []
    else
      var e := events[0];
      [if e.requestId.Some? && e.requestId.value !in kept then e.(requestId := None) else e]
      + ForgetRequests(events[1..], kept)
  }

  function DropClientStep(v: Vault, clientId: nat): Vault {
    var requests := map id | id in v.requests && v.requests[id].clientId != clientId :: v.requests[id];
    v.(clients := v.clients - {clientId}, policies := v.policies - {clientId}, requests := requests,
       itemRows := Filter(v.itemRows, (row: ItemRow) => row.requestId in requests),
       events := ForgetRequests(v.events, requests.Keys))
  }

  datatype Step =
    | Create(id: nat, clientId: nat, tokenBudget: int, early: Gate, hits: seq<Hit>)
    | PreviewIt(id: nat, hits: seq<Hit>)
    | Approve(id: nat, revision: Revision, memoryIds: seq<nat>, hits: seq<Hit>)
    | Deny(id: nat)
    | Retrieve(clientId: nat, id: nat)
    | AddMemory(id: nat, memory: Memory)
    | EditMemory(id: nat, memory: Memory)
    | AddPolicy(clientId: nat, policy: Policy)
    | EditPolicy(clientId: nat, policy: Policy)
    | RelabelPolicy(clientId: nat, allowedCategories: set<nat>, deniedCategories: set<nat>)
    | DropPolicy(clientId: nat)
    | AddClient(id: nat, client: Client)
    | EditClient(id: nat, client: Client)
    | DropClient(id: nat)
    | Tick(ms: nat)

  /** Retrieval returns each memory at most once, with a non-negative score. */
  predicate RetrievalHits(hits: seq<Hit>) {
    (forall i, j :: 0 <= i < j < |hits| ==> hits[i].id != hits[j].id) &&
    forall i :: 0 <= i < |hits| ==> hits[i].score >= 0.0
  }

  /** What the callers of the services guarantee: fresh ids, existing rows, request schemas. */
  predicate Legal(v: Vault, step: Step) {
    match step
    case Create(id, clientId, _, _, hits) => id !in v.usedIds && clientId in v.clients && RetrievalHits(hits)
    case PreviewIt(_, hits) => RetrievalHits(hits)
    case Approve(_, _, memoryIds, hits) => RetrievalHits(hits) && memoryIds != []
    case AddMemory(id, _) => id !in v.usedIds
    case EditMemory(id, _) => id in v.memories
    case AddPolicy(clientId, policy) => clientId in v.clients && clientId !in v.policies && policy.id !in v.usedIds
    case EditPolicy(clientId, policy) => clientId in v.policies && policy.id == v.policies[clientId].id
    case RelabelPolicy(clientId, _, _) => clientId in v.policies
    case AddClient(id, _) => id !in v.usedIds
    case EditClient(id, _) => id in v.clients
    case _ => true
  }

  /**
   * Every stamped write advances the clock first, so a version is never reused. An edit of a policy that only
   * changes its category relations may leave the version stamp as it was: RelabelPolicy.
   */
  function Apply(v: Vault, step: Step): (Vault, Reply) {
    match step
    case Create(id, clientId, tokenBudget, early, hits) => CreateStep(v, id, clientId, tokenBudget, early, hits)
    case PreviewIt(id, hits) => PreviewStep(v, id, hits)
    case Approve(id, revision, memoryIds, hits) => ApproveStep(v, id, revision, memoryIds, hits)
    case Deny(id) => DenyStep(v, id)
    case Retrieve(clientId, id) => RetrieveStep(v, clientId, id)
    case AddMemory(id, memory) =>
      (v.(memories := v.memories[id := memory.(updatedAt := v.now + 1)],
          usedIds := v.usedIds + {id}, now := v.now + 1), Done)
    case EditMemory(id, memory) =>
      (v.(memories := v.memories[id := memory.(updatedAt := v.now + 1)], now := v.now + 1), Done)
    case AddPolicy(clientId, policy) =>
      (v.(policies := v.policies[clientId := policy.(updatedAt := v.now + 1)],
          usedIds := v.usedIds + {policy.id}, now := v.now + 1), Done)
    case EditPolicy(clientId, policy) =>
      (v.(policies := v.policies[clientId := policy.(updatedAt := v.now + 1)], now := v.now + 1), Done)
    case RelabelPolicy(clientId, allowed, denied) =>
      (if clientId in v.policies
       then v.(policies := v.policies[clientId := v.policies[clientId].(allowedCategories := allowed, deniedCategories := denied)])
       else v, Done)
    case DropPolicy(clientId) =>
      (if clientId in v.policies
       then v.(policies := v.policies - {clientId}, requests := ForgetPolicy(v.requests, v.policies[clientId].id))
       else v, Done)
    case AddClient(id, client) =>
      (v.(clients := v.clients[id := client], usedIds := v.usedIds + {id}), Done)
    case EditClient(id, client) => (v.(clients := v.clients[id := client]), Done)
    case DropClient(id) => (DropClientStep(v, id), Done)
    case Tick(ms) => (v.(now := v.now + ms), Done)
  }
}
