/** Policy evaluation for one owner: apps/api/src/policies/policy-evaluation.service.ts. */
module Permissions {
  import opened Common

  datatype TrustLevel = UnknownTrust | ApprovedTrust | BlockedTrust

  datatype Client = Client(
    name: nat,
    trust: TrustLevel,
    retention: nat,
    tokenHash: Option<nat>,
    registration: Option<nat>
  )

  /** What `clientRevision` hashes; a constructor stands for the injective digest. */
  datatype ClientRevision = ClientRevision(id: nat, client: Client)

  datatype Policy = Policy(
    id: nat,
    updatedAt: int,
    maxSensitivity: nat,
    mayRead: bool,
    requiresConfirmation: bool,
    expiresAt: Option<int>,
    allowedCategories: set<nat>,
    deniedCategories: set<nat>
  )

  datatype MemoryStatus = ActiveMemory | ArchivedMemory | ExpiredMemory | DeletedMemory

  datatype Memory = Memory(
    title: string,
    body: string,
    categories: seq<nat>,
    sensitivity: nat,
    status: MemoryStatus,
    approved: bool,
    expiresAt: Option<int>,
    updatedAt: int
  )

  datatype Reason =
    | UnknownOrBlockedClient | NoClientPolicy | PolicyExpired | OperationNotAllowed
    | InactiveMemory | UnapprovedMemory | ExpiredMemoryReason | AboveSensitivityCeiling
    | DeniedCategory | CategoryNotAllowed | NoMatchingMemories | NoAllowedMemories
    | ConfirmationRequired | PolicyChanged

  /** Why a policy withholds one memory, in the order the checks are made. */
  function DenialReason(p: Policy, m: Memory, now: int): (reason: Option<Reason>)
    ensures reason.None? <==>
              && m.status == ActiveMemory && m.approved && Unexpired(m.expiresAt, now)
              && m.sensitivity <= p.maxSensitivity
              && (forall key :: key in m.categories ==> key !in p.deniedCategories)
              && (p.allowedCategories == {} || exists key :: key in m.categories && key in p.allowedCategories)
  {
    if m.status != ActiveMemory then Some(InactiveMemory)
    else if !m.approved then Some(UnapprovedMemory)
    else if !Unexpired(m.expiresAt, now) then Some(ExpiredMemoryReason)
    else if m.sensitivity > p.maxSensitivity then Some(AboveSensitivityCeiling)
    else if exists key :: key in m.categories && key in p.deniedCategories then Some(DeniedCategory)
    else if p.allowedCategories != {} && !exists key :: key in m.categories && key in p.allowedCategories then
      Some(CategoryNotAllowed)
    else None
  }

  predicate Permits(p: Policy, m: Memory, now: int) {
    DenialReason(p, m, now).None?
  }

  /** Authority of a client before any memory is looked at; policies are keyed by their client. */
  datatype Gate = Gate(client: Option<Client>, policy: Option<Policy>, denial: Option<Reason>)

  function Lookup<T>(table: map<nat, T>, id: nat): Option<T> {
    if id in table then Some(table[id]) else None
  }

  function EvaluateForClient(
    clients: map<nat, Client>, policies: map<nat, Policy>, clientId: nat, now: int
  ): (gate: Gate)
    ensures gate.denial.None? <==>
              && clientId in clients && clients[clientId].trust != BlockedTrust
              && clientId in policies && policies[clientId].mayRead && Unexpired(policies[clientId].expiresAt, now)
    ensures gate.denial.None? ==> gate.client == Some(clients[clientId]) && gate.policy == Some(policies[clientId])
  {
    var client := Lookup(clients, clientId);
    var policy := if client.None? then None else Lookup(policies, clientId);
    var denial :=
      if client.None? || client.value.trust == BlockedTrust then Some(UnknownOrBlockedClient)
      else if policy.None? then Some(NoClientPolicy)
      else if !Unexpired(policy.value.expiresAt, now) then Some(PolicyExpired)
      else if !policy.value.mayRead then Some(OperationNotAllowed)
      else None;
    Gate(client, policy, denial)
  }

  function PolicyId(gate: Gate): Option<nat> {
    if gate.policy.Some? then Some(gate.policy.value.id) else None
  }

  function PolicyVersion(gate: Gate): Option<int> {
    if gate.policy.Some? then Some(gate.policy.value.updatedAt) else None
  }

  /** Time moves a memory out of a policy only by expiring it. */
  lemma PermitsOverTime(p: Policy, m: Memory, before: int, after: int)
    requires before <= after && Permits(p, m, before)
    ensures Permits(p, m, after) <==> Unexpired(m.expiresAt, after)
  {
  }

  /** Why a client may not read: the first of the checks that fails, in their order. */
  lemma FirstDenial(clients: map<nat, Client>, policies: map<nat, Policy>, clientId: nat, now: int)
    ensures var denial := EvaluateForClient(clients, policies, clientId, now).denial;
            var known := clientId in clients && clients[clientId].trust != BlockedTrust;
            && (denial == Some(UnknownOrBlockedClient) <==> !known)
            && (denial == Some(NoClientPolicy) <==> known && clientId !in policies)
            && (denial == Some(PolicyExpired) <==> known && clientId in policies && !Unexpired(policies[clientId].expiresAt, now))
            && (denial == Some(OperationNotAllowed) <==>
                  known && clientId in policies && Unexpired(policies[clientId].expiresAt, now) && !policies[clientId].mayRead)
  {
  }

  /** The category checks of a policy. */
  predicate HasDenied(p: Policy, m: Memory) {
    exists key :: key in m.categories && key in p.deniedCategories
  }

  predicate OutsideAllowed(p: Policy, m: Memory) {
    p.allowedCategories != {} && !exists key :: key in m.categories && key in p.allowedCategories
  }

  /** Why a policy withholds a memory: the first of the checks that fails, in their order. */
  lemma FirstReason(p: Policy, m: Memory, now: int)
    ensures var reason := DenialReason(p, m, now);
            var alive := m.status == ActiveMemory && m.approved && Unexpired(m.expiresAt, now);
            && (reason == Some(InactiveMemory) <==> m.status != ActiveMemory)
            && (reason == Some(UnapprovedMemory) <==> m.status == ActiveMemory && !m.approved)
            && (reason == Some(ExpiredMemoryReason) <==> m.status == ActiveMemory && m.approved && !Unexpired(m.expiresAt, now))
            && (reason == Some(AboveSensitivityCeiling) <==> alive && m.sensitivity > p.maxSensitivity)
            && (reason == Some(DeniedCategory) <==> alive && m.sensitivity <= p.maxSensitivity && HasDenied(p, m))
            && (reason == Some(CategoryNotAllowed) <==>
                  alive && m.sensitivity <= p.maxSensitivity && !HasDenied(p, m) && OutsideAllowed(p, m))
  {
  }
}
