/**
 * The OAuth endpoints as statements over the rows. Each method is proved to be the matching step of
 * module OAuth.
 */
module OAuthService {
  import opened Common
  import opened OAuth

  function UnrevokedOfClient(tokens: map<nat, Token>, client: nat): set<nat> {
    set t | t in tokens && tokens[t].client == client && !tokens[t].revoked
  }

  function UnrevokedOfSource(tokens: map<nat, Token>, code: nat): set<nat> {
    set t | t in tokens && tokens[t].source == code && !tokens[t].revoked
  }

  class OAuthProvider {
    var rows: State

    constructor (rows: State)
      ensures this.rows == rows
    {
      this.rows := rows;
    }

    method RevokeTokensForClient(client: nat) returns (count: nat)
      modifies this
      ensures rows == old(rows).(tokens := RevokeClient(old(rows).tokens, client))
      ensures count == |UnrevokedOfClient(old(rows).tokens, client)|
    {
      var ids := UnrevokedOfClient(rows.tokens, client);
      if ids == {} {
        assert forall t :: t in rows.tokens && rows.tokens[t].client == client ==> rows.tokens[t].revoked || t in ids;
        assert RevokeClient(rows.tokens, client) == rows.tokens;
        return 0;
      }
      UpdateRevoked(ids);
      assert rows.tokens == RevokeClient(old(rows).tokens, client);
      count := |ids|;
    }

    method RevokeTokensForSourceCode(code: nat) returns (count: nat)
      modifies this
      ensures rows == old(rows).(tokens := RevokeSource(old(rows).tokens, code))
      ensures count == |UnrevokedOfSource(old(rows).tokens, code)|
    {
      var ids := UnrevokedOfSource(rows.tokens, code);
      if ids == {} {
        assert forall t :: t in rows.tokens && rows.tokens[t].source == code ==> rows.tokens[t].revoked || t in ids;
        assert RevokeSource(rows.tokens, code) == rows.tokens;
        return 0;
      }
      UpdateRevoked(ids);
      assert rows.tokens == RevokeSource(old(rows).tokens, code);
      count := |ids|;
    }

    /** `updateMany` over a list of ids. */
    method UpdateRevoked(ids: set<nat>)
      modifies this
      ensures rows == old(rows).(tokens :=
                map t | t in old(rows).tokens :: if t in ids then old(rows).tokens[t].(revoked := true) else old(rows).tokens[t])
    {
      rows := rows.(tokens := map t | t in rows.tokens :: if t in ids then rows.tokens[t].(revoked := true) else rows.tokens[t]);
    }

    method IssueTokenPair(grant: Token, pair: Pair)
      modifies this
      ensures rows == IssuePair(old(rows), grant, pair)
    {
      var access := grant.(kind := Access, expiresAt := rows.now + rows.accessTtlMs, revoked := false);
      var refresh := grant.(kind := Refresh, expiresAt := rows.now + rows.refreshTtlMs, revoked := false);
      rows := rows.(tokens := rows.tokens[pair.access := access][pair.refresh := refresh],
                    usedIds := rows.usedIds + {pair.access, pair.refresh});
    }

    method ExchangeAuthorizationCode(caller: nat, code: nat, redirectUri: Option<nat>, resource: Option<nat>, pair: Pair)
      returns (response: Response)
      modifies this
      ensures (rows, response) == ExchangeCodeStep(old(rows), caller, code, redirectUri, resource, pair)
    {
      hide IssuePair;
      if code !in rows.codes || rows.codes[code].registration != caller {
        return Refused(InvalidGrant);
      }
      var c := rows.codes[code];
      if c.consumedAt.Some? {
        var revoked := RevokeTokensForSourceCode(code);
        return Refused(InvalidGrant);
      }
      if c.expiresAt <= rows.now {
        return Refused(InvalidGrant);
      }
      if redirectUri.Some? && redirectUri.value != c.redirectUri {
        return Refused(InvalidGrant);
      }
      if resource.Some? && resource.value != rows.served {
        return Refused(InvalidTarget);
      }
      if c.resource.Some? && resource.Some? && c.resource != resource {
        return Refused(InvalidTarget);
      }
      if !GrantApproved(rows, c.registration, c.client) {
        return Refused(InvalidGrant);
      }
      rows := rows.(codes := rows.codes[code := c.(consumedAt := Some(rows.now))]);
      IssueTokenPair(CodeGrant(c, code), pair);
      response := Issued(pair.access, pair.refresh, c.scopes);
    }

    method ExchangeRefreshToken(caller: nat, token: nat, scopes: Option<seq<string>>, resource: Option<nat>, pair: Pair)
      returns (response: Response)
      modifies this
      ensures (rows, response) == ExchangeRefreshStep(old(rows), caller, token, scopes, resource, pair)
    {
      hide IssuePair;
      if token !in rows.tokens || rows.tokens[token].kind != Refresh {
        return Refused(InvalidGrant);
      }
      var t := rows.tokens[token];
      if t.revoked {
        var revoked := RevokeTokensForClient(t.client);
        return Refused(InvalidGrant);
      }
      if t.expiresAt <= rows.now || !GrantApproved(rows, t.registration, t.client) || t.registration != caller {
        return Refused(InvalidGrant);
      }
      var requested := if scopes.Some? && scopes.value != [] then scopes.value else t.scopes;
      var narrowed := Narrowed(t, scopes);
      if |narrowed| != |requested| {
        return Refused(InvalidScope);
      }
      if resource.Some? && resource.value != rows.served {
        return Refused(InvalidTarget);
      }
      if t.resource.Some? && resource.Some? && t.resource != resource {
        return Refused(InvalidTarget);
      }
      rows := rows.(tokens := rows.tokens[token := t.(revoked := true)]);
      IssueTokenPair(t.(scopes := narrowed), pair);
      response := Issued(pair.access, pair.refresh, narrowed);
    }

    method RevokeToken(caller: nat, token: nat)
      modifies this
      ensures rows == RevokeTokenStep(old(rows), caller, token)
    {
      if token !in rows.tokens || rows.tokens[token].registration != caller || rows.tokens[token].revoked {
        return;
      }
      var row := rows.tokens[token];
      if row.kind == Refresh {
        var revoked := RevokeTokensForClient(row.client);
        return;
      }
      rows := rows.(tokens := rows.tokens[token := row.(revoked := true)]);
    }

    method Authorize(registration: nat, request: nat, redirectUri: nat, scopes: Option<seq<string>>, resource: Option<nat>)
      returns (response: Response)
      modifies this
      ensures (rows, response) == AuthorizeStep(old(rows), registration, request, redirectUri, scopes, resource)
    {
      var resolved := ResolveRequestedScopes(scopes);
      if resolved.None? {
        return Refused(InvalidScope);
      }
      if resource.Some? && resource.value != rows.served {
        return Refused(InvalidTarget);
      }
      if registration !in rows.registrations {
        return Refused(InvalidGrant);
      }
      rows := rows.(requests := rows.requests[request :=
                      AuthRequest(registration, redirectUri, resolved.value, resource, rows.now + REQUEST_TTL_MS, false)],
                    usedIds := rows.usedIds + {request});
      response := Done;
    }

    method DenyRequest(request: nat, nonceMatches: bool)
      modifies this
      ensures rows == DenyStep(old(rows), request, nonceMatches)
    {
      if PendingRequest(rows, request, nonceMatches) {
        rows := rows.(requests := rows.requests[request := rows.requests[request].(decided := true)]);
      }
    }

    method EnsureGrantPolicy(client: nat, scopes: seq<string>)
      modifies this
      ensures rows == old(rows).(policies := old(rows).policies[client := GrantedOperations(PolicyOf(old(rows).policies, client), scopes)])
    {
      hide ResultingOperations, ScopesToOperations;
      var operations := ScopesToOperations(scopes);
      if client in rows.policies {
        var merged := ResultingOperations(rows.policies[client], scopes);
        if |merged| != |rows.policies[client]| {
          rows := rows.(policies := rows.policies[client := merged]);
        } else {
          assert rows.policies == rows.policies[client := rows.policies[client]];
        }
        return;
      }
      rows := rows.(policies := rows.policies[client := operations]);
    }

    method ApproveRequest(request: nat, nonceMatches: bool, client: nat, code: nat)
      modifies this
      ensures rows == ApproveStep(old(rows), request, nonceMatches, client, code)
    {
      hide ResultingOperations, ScopesToOperations;
      if !PendingRequest(rows, request, nonceMatches) {
        return;
      }
      var r := rows.requests[request];
      if client in rows.clients && rows.clients[client].trust == Blocked {
        return;
      }
      rows := rows.(clients := rows.clients[client := Client(Some(r.registration), Trust.Approved)]);
      EnsureGrantPolicy(client, r.scopes);
      if rows.registrations[r.registration] == PendingRegistration {
        rows := rows.(registrations := rows.registrations[r.registration := ApprovedRegistration]);
      } else {
        assert rows.registrations == rows.registrations[r.registration := ApprovedRegistration];
      }
      rows := rows.(codes := rows.codes[code :=
        Code(r.registration, client, r.redirectUri, r.scopes, r.resource, rows.now + CODE_TTL_MS, None)]);
      rows := rows.(requests := rows.requests[request := r.(decided := true)], usedIds := rows.usedIds + {client, code});
    }

    method UpdateClient(client: nat, trust: Option<Trust>)
      modifies this
      ensures rows == UpdateClientStep(old(rows), client, trust)
    {
      if client !in rows.clients {
        return;
      }
      var existing := rows.clients[client];
      if trust.Some? {
        rows := rows.(clients := rows.clients[client := existing.(trust := trust.value)]);
      } else {
        assert rows.clients == rows.clients[client := existing];
      }
      if existing.registration.Some? && trust == Some(Blocked) && existing.trust != Blocked {
        var revoked := RevokeTokensForClient(client);
      }
    }

    /** The owner writes the operations of a client's policy as received. */
    method SetPolicy(client: nat, operations: seq<Operation>)
      modifies this
      ensures rows == if client in old(rows).clients then Apply(old(rows), Step.SetPolicy(client, operations)).0 else old(rows)
    {
      if client !in rows.clients {
        return;
      }
      rows := rows.(policies := rows.policies[client := operations]);
    }

    /** Tokens are revoked first so that the cut-off is audited, then the row takes its dependents with it. */
    method DeleteClient(client: nat)
      modifies this
      ensures client in old(rows).clients ==> rows == DeleteClientStep(old(rows), client)
      ensures client !in old(rows).clients ==> rows == old(rows)
    {
      if client !in rows.clients {
        return;
      }
      if rows.clients[client].registration.Some? {
        var revoked := RevokeTokensForClient(client);
      }
      rows := rows.(clients := rows.clients - {client}, policies := rows.policies - {client},
                    codes := map c | c in rows.codes && rows.codes[c].client != client :: rows.codes[c],
                    tokens := map t | t in rows.tokens && rows.tokens[t].client != client :: rows.tokens[t]);
      assert rows.tokens == DeleteClientStep(old(rows), client).tokens;
    }
  }
}
