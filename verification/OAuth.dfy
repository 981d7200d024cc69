/**
 * OAuth grants, codes and tokens with every endpoint call as one atomic step: oauth-provider.service.ts,
 * oauth-tokens.service.ts and oauth-grants.service.ts in apps/api/src/oauth, and clients.service.ts in
 * apps/api/src/clients. A credential stands for its hash.
 */
module OAuth {
  import opened Common

  const SCOPE_READ := "memory.read"
  const SCOPE_SUGGEST := "memory.suggest"
  const SUPPORTED_SCOPES := [SCOPE_READ, SCOPE_SUGGEST]
  const REQUEST_TTL_MS := 600000
  const CODE_TTL_MS := 300000

  datatype RegistrationStatus = PendingRegistration | ApprovedRegistration | BlockedRegistration

  datatype Trust = Unknown | Approved | Blocked

  datatype Operation = ReadOperation | SuggestOperation | WriteOperation | SummarizeOperation | ExportOperation

  datatype Client = Client(registration: Option<nat>, trust: Trust)

  datatype AuthRequest = AuthRequest(
    registration: nat,
    redirectUri: nat,
    scopes: seq<string>,
    resource: Option<nat>,
    expiresAt: int,
    decided: bool
  )

  datatype Code = Code(
    registration: nat,
    client: nat,
    redirectUri: nat,
    scopes: seq<string>,
    resource: Option<nat>,
    expiresAt: int,
    consumedAt: Option<int>
  )

  datatype TokenKind = Access | Refresh

  datatype Token = Token(
    kind: TokenKind,
    registration: nat,
    client: nat,
    scopes: seq<string>,
    resource: Option<nat>,
    source: nat,
    expiresAt: int,
    revoked: bool
  )

  /** `usedIds` remembers every credential and row id ever handed out. */
  datatype State = State(
    registrations: map<nat, RegistrationStatus>,
    clients: map<nat, Client>,
    policies: map<nat, seq<Operation>>,
    requests: map<nat, AuthRequest>,
    codes: map<nat, Code>,
    tokens: map<nat, Token>,
    served: nat,
    accessTtlMs: nat,
    refreshTtlMs: nat,
    usedIds: set<nat>,
    now: int
  )

  datatype Error = InvalidGrant | InvalidTarget | InvalidScope

  datatype Response = Issued(access: nat, refresh: nat, scopes: seq<string>) | Refused(error: Error) | Done

  // ---------------------------------------------------------------- scopes and resources

  /** None is the invalid-scope error. */
  function ResolveRequestedScopes(scopes: Option<seq<string>>): Option<seq<string>> {
    if scopes.None? || scopes.value == [] then Some(SUPPORTED_SCOPES)
    else if exists scope :: scope in scopes.value && scope !in SUPPORTED_SCOPES then None
    else Some(Unique(scopes.value))
  }

  predicate ResourceAllowed(served: nat, resource: Option<nat>) {
    resource.None? || resource.value == served
  }

  predicate ResourceMatches(granted: Option<nat>, requested: Option<nat>) {
    granted.None? || requested.None? || granted == requested
  }

  function ScopesToOperations(scopes: seq<string>): seq<Operation> {
    (if SCOPE_READ in scopes then [ReadOperation] else []) + (if SCOPE_SUGGEST in scopes then [SuggestOperation] else [])
  }

  function ResultingOperations(existing: seq<Operation>, scopes: seq<string>): seq<Operation> {
    Unique(existing + ScopesToOperations(scopes))
  }

  /**
   * The operations of the policy after consent (`ensureGrantPolicy`): a missing policy is created, an existing
   * one is rewritten only when the merged list has another length.
   */
  function GrantedOperations(existing: Option<seq<Operation>>, scopes: seq<string>): seq<Operation> {
    if existing.None? then ScopesToOperations(scopes)
    else
      var merged := ResultingOperations(existing.value, scopes);
      if |merged| != |existing.value| then merged else existing.value
  }

  function PolicyOf(policies: map<nat, seq<Operation>>, client: nat): Option<seq<Operation>> {
    if client in policies then Some(policies[client]) else None
  }

  // ---------------------------------------------------------------- tokens

  function RevokeClient(tokens: map<nat, Token>, client: nat): map<nat, Token> {
    map t | t in tokens :: if tokens[t].client == client then tokens[t].(revoked := true) else tokens[t]
  }

  function RevokeSource(tokens: map<nat, Token>, code: nat): map<nat, Token> {
    map t | t in tokens :: if tokens[t].source == code then tokens[t].(revoked := true) else tokens[t]
  }

  /** The credentials a successful exchange hands out. */
  datatype Pair = Pair(access: nat, refresh: nat)

  /** `issueTokenPair`: `grant` carries the registration, client, scopes, resource and source code of both. */
  function IssuePair(s: State, grant: Token, pair: Pair): State {
    s.(tokens := s.tokens[pair.access := grant.(kind := Access, expiresAt := s.now + s.accessTtlMs, revoked := false)]
                         [pair.refresh := grant.(kind := Refresh, expiresAt := s.now + s.refreshTtlMs, revoked := false)],
       usedIds := s.usedIds + {pair.access, pair.refresh})
  }

  predicate GrantApproved(s: State, registration: nat, client: nat) {
    && registration in s.registrations && s.registrations[registration] == ApprovedRegistration
    && client in s.clients && s.clients[client].trust == Approved
  }

  /** `isUsableGrant`. */
  predicate Usable(s: State, t: Token) {
    !t.revoked && t.expiresAt > s.now && GrantApproved(s, t.registration, t.client)
  }

  /** `verifyAccessToken` accepts the token. */
  predicate Live(s: State, t: nat) {
    t in s.tokens && s.tokens[t].kind == Access && Usable(s, s.tokens[t])
  }

  // ---------------------------------------------------------------- exchanges

  function CodeGrant(c: Code, code: nat): Token {
    Token(Access, c.registration, c.client, c.scopes, c.resource, code, 0, false)
  }

  function ExchangeCodeStep(s: State, caller: nat, code: nat, redirectUri: Option<nat>, resource: Option<nat>, pair: Pair): (State, Response) {
    if code !in s.codes || s.codes[code].registration != caller then (s, Refused(InvalidGrant))
    else
      var c := s.codes[code];
      if c.consumedAt.Some? then (s.(tokens := RevokeSource(s.tokens, code)), Refused(InvalidGrant))
      else if c.expiresAt <= s.now then (s, Refused(InvalidGrant))
      else if redirectUri.Some? && redirectUri.value != c.redirectUri then (s, Refused(InvalidGrant))
      else if !ResourceAllowed(s.served, resource) || !ResourceMatches(c.resource, resource) then (s, Refused(InvalidTarget))
      else if !GrantApproved(s, c.registration, c.client) then (s, Refused(InvalidGrant))
      else
        var consumed := s.(codes := s.codes[code := c.(consumedAt := Some(s.now))]);
        (IssuePair(consumed, CodeGrant(c, code), pair), Issued(pair.access, pair.refresh, c.scopes))
  }

  function RequestedScopes(t: Token, scopes: Option<seq<string>>): seq<string> {
    if scopes.Some? && scopes.value != [] then scopes.value else t.scopes
  }

  function Narrowed(t: Token, scopes: Option<seq<string>>): seq<string> {
    Filter(RequestedScopes(t, scopes), (scope: string) => scope in t.scopes)
  }

  function ExchangeRefreshStep(s: State, caller: nat, token: nat, scopes: Option<seq<string>>, resource: Option<nat>, pair: Pair): (State, Response) {
    if token !in s.tokens || s.tokens[token].kind != Refresh then (s, Refused(InvalidGrant))
    else
      var t := s.tokens[token];
      if t.revoked then (s.(tokens := RevokeClient(s.tokens, t.client)), Refused(InvalidGrant))
      else if !Usable(s, t) || t.registration != caller then (s, Refused(InvalidGrant))
      else if |Narrowed(t, scopes)| != |RequestedScopes(t, scopes)| then (s, Refused(InvalidScope))
      else if !ResourceAllowed(s.served, resource) || !ResourceMatches(t.resource, resource) then (s, Refused(InvalidTarget))
      else
        var spent := s.(tokens := s.tokens[token := t.(revoked := true)]);
        var narrowed := Narrowed(t, scopes);
        (IssuePair(spent, t.(scopes := narrowed), pair), Issued(pair.access, pair.refresh, narrowed))
  }

  /** The revocation endpoint: unknown, foreign and revoked tokens are ignored. */
  function RevokeTokenStep(s: State, caller: nat, token: nat): State {
    if token !in s.tokens || s.tokens[token].registration != caller || s.tokens[token].revoked then s
    else if s.tokens[token].kind == Refresh then s.(tokens := RevokeClient(s.tokens, s.tokens[token].client))
    else s.(tokens := s.tokens[token := s.tokens[token].(revoked := true)])
  }

  // ---------------------------------------------------------------- consent and clients

  function AuthorizeStep(s: State, registration: nat, request: nat, redirectUri: nat, scopes: Option<seq<string>>, resource: Option<nat>): (State, Response) {
    if ResolveRequestedScopes(scopes).None? then (s, Refused(InvalidScope))
    else if !ResourceAllowed(s.served, resource) then (s, Refused(InvalidTarget))
    else if registration !in s.registrations then (s, Refused(InvalidGrant))
    else
      (s.(requests := s.requests[request :=
            AuthRequest(registration, redirectUri, ResolveRequestedScopes(scopes).value, resource, s.now + REQUEST_TTL_MS, false)],
          usedIds := s.usedIds + {request}), Done)
  }

  /** `loadPendingRequest` succeeds. */
  predicate PendingRequest(s: State, request: nat, nonceMatches: bool) {
    && request in s.requests
    && s.requests[request].registration in s.registrations
    && s.registrations[s.requests[request].registration] != BlockedRegistration
    && !s.requests[request].decided && s.requests[request].expiresAt > s.now && nonceMatches
  }

  /** `client` is the owner's client for the registration, or a fresh id when there is none. */
  predicate GrantClient(s: State, registration: nat, client: nat) {
    if exists c :: c in s.clients && s.clients[c].registration == Some(registration) then
      client in s.clients && s.clients[client].registration == Some(registration)
    else client !in s.usedIds
  }

  /** `approve`: a blocked client refuses, an unknown one is approved, a missing one is created. */
  function ApproveStep(s: State, request: nat, nonceMatches: bool, client: nat, code: nat): State {
    if !PendingRequest(s, request, nonceMatches) || (client in s.clients && s.clients[client].trust == Blocked) then s
    else
      var r := s.requests[request];
      s.(clients := s.clients[client := Client(Some(r.registration), Approved)],
         policies := s.policies[client := GrantedOperations(PolicyOf(s.policies, client), r.scopes)],
         registrations := s.registrations[r.registration := ApprovedRegistration],
         codes := s.codes[code := Code(r.registration, client, r.redirectUri, r.scopes, r.resource, s.now + CODE_TTL_MS, None)],
         requests := s.requests[request := r.(decided := true)],
         usedIds := s.usedIds + {client, code})
  }

  function DenyStep(s: State, request: nat, nonceMatches: bool): State {
    if !PendingRequest(s, request, nonceMatches) then s
    else s.(requests := s.requests[request := s.requests[request].(decided := true)])
  }

  /** `updateClient`, as far as it concerns trust. */
  function UpdateClientStep(s: State, client: nat, trust: Option<Trust>): State {
    if client !in s.clients then s
    else
      var existing := s.clients[client];
      var updated := s.(clients := s.clients[client := existing.(trust := if trust.Some? then trust.value else existing.trust)]);
      if existing.registration.Some? && trust == Some(Blocked) && existing.trust != Blocked then
        updated.(tokens := RevokeClient(s.tokens, client))
      else updated
  }

  /** Deleting a client takes its policy, codes and tokens with it. */
  function DeleteClientStep(s: State, client: nat): State {
    s.(clients := s.clients - {client}, policies := s.policies - {client},
       codes := map c | c in s.codes && s.codes[c].client != client :: s.codes[c],
       tokens := map t | t in s.tokens && s.tokens[t].client != client :: s.tokens[t])
  }

  // ---------------------------------------------------------------- steps

  datatype Step =
    | Register(registration: nat)
    | SetRegistration(registration: nat, status: RegistrationStatus)
    | AddClient(client: nat, initial: Trust)
    | Authorize(registration: nat, request: nat, redirectTo: nat, scopes: Option<seq<string>>, resource: Option<nat>)
    | Approve(request: nat, nonceMatches: bool, client: nat, code: nat)
    | Deny(request: nat, nonceMatches: bool)
    | ExchangeCode(caller: nat, code: nat, redirectUri: Option<nat>, resource: Option<nat>, pair: Pair)
    | ExchangeRefresh(caller: nat, token: nat, scopes: Option<seq<string>>, resource: Option<nat>, pair: Pair)
    | RevokeToken(caller: nat, token: nat)
    | SetPolicy(client: nat, operations: seq<Operation>)
    | DropPolicy(client: nat)
    | UpdateClient(client: nat, trust: Option<Trust>)
    | DeleteClient(client: nat)
    | Tick(ms: nat)

  predicate FreshPair(s: State, pair: Pair) {
    pair.access !in s.usedIds && pair.refresh !in s.usedIds && pair.access != pair.refresh
  }

  /** New rows and credentials have ids nobody used before; a policy lists at least one operation, repeated or not. */
  predicate Legal(s: State, step: Step) {
    match step
    case Register(registration) => registration !in s.registrations
    case SetRegistration(registration, _) => registration in s.registrations
    case AddClient(client, _) => client !in s.usedIds
    case SetPolicy(client, operations) => client in s.clients && operations != []
    case Authorize(_, request, _, _, _) => request !in s.usedIds
    case Approve(request, _, client, code) =>
      code !in s.usedIds && code != client && (request in s.requests ==> GrantClient(s, s.requests[request].registration, client))
    case ExchangeCode(_, _, _, _, pair) => FreshPair(s, pair)
    case ExchangeRefresh(_, _, _, _, pair) => FreshPair(s, pair)
    case _ => true
  }

  function Apply(s: State, step: Step): (State, Response) {
    match step
    case Register(registration) => (s.(registrations := s.registrations[registration := PendingRegistration]), Done)
    case SetRegistration(registration, status) => (s.(registrations := s.registrations[registration := status]), Done)
    case AddClient(client, trust) => (s.(clients := s.clients[client := Client(None, trust)], usedIds := s.usedIds + {client}), Done)
    case Authorize(registration, request, redirectUri, scopes, resource) => AuthorizeStep(s, registration, request, redirectUri, scopes, resource)
    case Approve(request, nonceMatches, client, code) => (ApproveStep(s, request, nonceMatches, client, code), Done)
    case Deny(request, nonceMatches) => (DenyStep(s, request, nonceMatches), Done)
    case ExchangeCode(caller, code, redirectUri, resource, pair) => ExchangeCodeStep(s, caller, code, redirectUri, resource, pair)
    case ExchangeRefresh(caller, token, scopes, resource, pair) => ExchangeRefreshStep(s, caller, token, scopes, resource, pair)
    case RevokeToken(caller, token) => (RevokeTokenStep(s, caller, token), Done)
    case SetPolicy(client, operations) => (s.(policies := s.policies[client := operations]), Done)
    case DropPolicy(client) => (s.(policies := s.policies - {client}), Done)
    case UpdateClient(client, trust) => (UpdateClientStep(s, client, trust), Done)
    case DeleteClient(client) => (DeleteClientStep(s, client), Done)
    case Tick(ms) => (s.(now := s.now + ms), Done)
  }

  predicate Empty(s: State) {
    s.registrations == map[] && s.clients == map[] && s.policies == map[] && s.requests == map[] &&
    s.codes == map[] && s.tokens == map[]
  }

  ghost predicate Run(states: seq<State>, steps: seq<Step>) {
    && |states| == |steps| + 1
    && Empty(states[0])
    && forall i :: 0 <= i < |steps| ==> Legal(states[i], steps[i]) && states[i + 1] == Apply(states[i], steps[i]).0
  }
}
