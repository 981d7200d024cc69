/** Where every request, code, token and permission comes from, and what ends them, over every run. */
module OAuthOutcomes {
  import opened Common
  import opened OAuth
  import opened OAuthRuns

  lemma StepIs(states: seq<State>, steps: seq<Step>, i: nat)
    requires Run(states, steps) && i < |steps|
    ensures |states| == |steps| + 1 && Legal(states[i], steps[i]) && states[i + 1] == Apply(states[i], steps[i]).0
    ensures Inv(states[i])
  {
    hide Inv, Apply, Legal;
    Reachable(states, steps, i);
  }

  /** The answer step i got. */
  function Answer(states: seq<State>, steps: seq<Step>, i: nat): Response
    requires i < |steps| < |states|
  {
    Apply(states[i], steps[i]).1
  }

  // ---------------------------------------------------------------- authorization requests

  const ALL_SCOPES: set<string> := {"memory.read", "memory.suggest"}

  /** The list is what was asked for, each scope once; asking for none asks for all. */
  ghost predicate AskedFor(granted: seq<string>, asked: Option<seq<string>>) {
    && Distinct(granted)
    && forall scope :: scope in granted <==>
         scope in ALL_SCOPES && (asked.Some? && asked.value != [] ==> scope in asked.value)
  }

  /** The request is what the step asked for. */
  ghost predicate RequestedBy(authorize: Step, at: int, r: AuthRequest) {
    && authorize.Authorize?
    && r.registration == authorize.registration && r.redirectUri == authorize.redirectTo && r.resource == authorize.resource
    && r.expiresAt == at + 600_000
    && AskedFor(r.scopes, authorize.scopes)
  }

  lemma ResolvedAsAsked(scopes: Option<seq<string>>)
    requires ResolveRequestedScopes(scopes).Some?
    ensures AskedFor(ResolveRequestedScopes(scopes).value, scopes)
    ensures scopes.Some? ==> forall scope :: scope in scopes.value ==> scope in ALL_SCOPES
  {
    assert SCOPE_READ[7] != SCOPE_SUGGEST[7];
    if scopes.Some? {
      UniqueExactly(scopes.value);
    }
  }

  /**
   * An authorization request is answered Done exactly when all scopes it asks for are supported, its resource is the served one or
   * none, and the registration exists; the refusals come in that order, and change nothing.
   */
  lemma AuthorizeIff(states: seq<State>, steps: seq<Step>, i: nat)
    requires Run(states, steps) && i < |steps| && steps[i].Authorize?
    ensures var s, step, answer := states[i], steps[i], Answer(states, steps, i);
            var supported := step.scopes.Some? ==> forall scope :: scope in step.scopes.value ==> scope in ALL_SCOPES;
            var served := step.resource.Some? ==> step.resource.value == s.served;
            && (answer == Refused(InvalidScope) <==> !supported)
            && (answer == Refused(InvalidTarget) <==> supported && !served)
            && (answer == Refused(InvalidGrant) <==> supported && served && step.registration !in s.registrations)
            && (answer == Done <==> supported && served && step.registration in s.registrations)
            && (answer == Done ==>
                  step.request in states[i + 1].requests && !states[i + 1].requests[step.request].decided &&
                  RequestedBy(step, s.now, states[i + 1].requests[step.request]))
            && (answer != Done ==> states[i + 1] == s)
  {
    hide Inv, AskedFor;
    StepIs(states, steps, i);
    var step := steps[i];
    if ResolveRequestedScopes(step.scopes).Some? {
      ResolvedAsAsked(step.scopes);
    }
    assert forall scope :: scope in SUPPORTED_SCOPES <==> scope in ALL_SCOPES;
  }

  lemma KeepsRequest(s: State, step: Step, request: nat)
    requires Inv(s) && Legal(s, step) && request in s.requests
    ensures request in Apply(s, step).0.requests
    ensures Apply(s, step).0.requests[request].(decided := s.requests[request].decided) == s.requests[request]
    ensures s.requests[request].decided ==> Apply(s, step).0.requests[request].decided
  {
    hide IssuePair, Narrowed, ResolveRequestedScopes, GrantedOperations, GrantApproved, ResourceMatches, RequestedScopes, Inv;
    RowsUsed(s);
    if step.ExchangeCode? || step.ExchangeRefresh? {
      ExchangeKeepsRequests(s, step);
    }
  }

  lemma NewRequest(s: State, step: Step, request: nat)
    requires Legal(s, step) && request !in s.requests && request in Apply(s, step).0.requests
    ensures step.Authorize? && step.request == request && Apply(s, step).1 == Done
  {
    hide IssuePair, Narrowed, ResolveRequestedScopes, GrantedOperations, GrantApproved, ResourceMatches, RequestedScopes;
    if step.ExchangeCode? || step.ExchangeRefresh? {
      ExchangeKeepsRequests(s, step);
    }
  }

  /** Every authorization request goes back to the one call that made it, and never changes but for being decided. */
  lemma {:induction false} RequestOrigin(states: seq<State>, steps: seq<Step>, k: nat, request: nat) returns (i: nat)
    requires Run(states, steps) && k < |states| && request in states[k].requests
    ensures i < k && steps[i].Authorize? && steps[i].request == request && RequestedBy(steps[i], states[i].now, states[k].requests[request])
  {
    hide Apply, Legal, Inv, AskedFor;
    if k == 0 {
      assert false;
    } else {
      StepIs(states, steps, k - 1);
      if request in states[k - 1].requests {
        i := RequestOrigin(states, steps, k - 1, request);
        KeepsRequest(states[k - 1], steps[k - 1], request);
      } else {
        NewRequest(states[k - 1], steps[k - 1], request);
        i := k - 1;
        AuthorizeIff(states, steps, i);
      }
    }
  }

  // ---------------------------------------------------------------- codes

  /** The code is what the owner consented to at that moment: everything the request asked for, for five minutes. */
  predicate ConsentedTo(approve: Step, before: State, c: Code) {
    && approve.Approve? && approve.request in before.requests && approve.nonceMatches
    && c.client == approve.client
    && c.registration == before.requests[approve.request].registration
    && c.redirectUri == before.requests[approve.request].redirectUri
    && c.scopes == before.requests[approve.request].scopes
    && c.resource == before.requests[approve.request].resource
    && !before.requests[approve.request].decided && before.now < before.requests[approve.request].expiresAt
    && c.expiresAt == before.now + 300_000
  }

  lemma KeepsCode(s: State, step: Step, code: nat)
    requires Legal(s, step) && code in Apply(s, step).0.codes && code in s.codes && code in s.usedIds
    ensures Apply(s, step).0.codes[code].(consumedAt := s.codes[code].consumedAt) == s.codes[code]
  {
    hide IssuePair, Narrowed, ResolveRequestedScopes, GrantedOperations, GrantApproved, ResourceMatches, RequestedScopes;
    if step.ExchangeCode? || step.ExchangeRefresh? {
      ExchangedCodes(s, step, code);
    }
  }

  lemma ExchangedCodes(s: State, step: Step, code: nat)
    requires step.ExchangeCode? || step.ExchangeRefresh?
    ensures code in Apply(s, step).0.codes <==> code in s.codes
    ensures code in s.codes ==> Apply(s, step).0.codes[code].(consumedAt := s.codes[code].consumedAt) == s.codes[code]
  {
    hide Narrowed, RequestedScopes, GrantApproved, ResourceMatches, ResourceAllowed, RevokeClient, RevokeSource, IssuePair;
    if Apply(s, step).1.Issued? {
      if step.ExchangeCode? {
        IssuedRows(s.(codes := s.codes[step.code := s.codes[step.code].(consumedAt := Some(s.now))]), CodeGrant(s.codes[step.code], step.code), step.pair);
      } else {
        var row := s.tokens[step.token];
        IssuedRows(s.(tokens := s.tokens[step.token := row.(revoked := true)]), row.(scopes := Narrowed(row, step.scopes)), step.pair);
      }
    }
  }

  lemma NewCode(s: State, step: Step, code: nat)
    requires Legal(s, step) && code !in s.codes && code in Apply(s, step).0.codes
    ensures step.Approve? && step.code == code && ConsentedTo(step, s, Apply(s, step).0.codes[code])
  {
    hide IssuePair, Narrowed, ResolveRequestedScopes, GrantedOperations, GrantApproved, ResourceMatches, RequestedScopes;
    if step.ExchangeCode? || step.ExchangeRefresh? {
      ExchangedCodes(s, step, code);
    }
  }

  lemma CodeInUse(s: State, code: nat)
    requires Inv(s) && code in s.codes
    ensures code in s.usedIds
  {
  }

  /**
   * Every code goes back to one consent, given in time by the owner, and through it to one authorization request of the same
   * registration: its scopes are what that call asked for, each once, and its redirect and resource are those asked for.
   */
  lemma {:induction false} CodeOrigin(states: seq<State>, steps: seq<Step>, k: nat, code: nat) returns (i: nat, j: nat)
    requires Run(states, steps) && k < |states| && code in states[k].codes
    ensures i < j < k && steps[j].Approve? && steps[j].code == code && ConsentedTo(steps[j], states[j], states[k].codes[code])
    ensures steps[i].Authorize? && steps[i].request == steps[j].request
    ensures var c := states[k].codes[code];
            c.registration == steps[i].registration && c.redirectUri == steps[i].redirectTo && c.resource == steps[i].resource &&
            AskedFor(c.scopes, steps[i].scopes) && states[j].now < states[i].now + 600_000
  {
    hide Apply, Legal, Inv, AskedFor;
    if k == 0 {
      assert false;
    } else {
      StepIs(states, steps, k - 1);
      if code in states[k - 1].codes {
        i, j := CodeOrigin(states, steps, k - 1, code);
        CodeInUse(states[k - 1], code);
        KeepsCode(states[k - 1], steps[k - 1], code);
      } else {
        j := k - 1;
        NewCode(states[j], steps[j], code);
        i := RequestOrigin(states, steps, j, steps[j].request);
      }
    }
  }

  // ---------------------------------------------------------------- tokens

  /** What an exchange makes the token: its kind's lifetime, and the scopes of the code, or those asked for of the old token. */
  predicate IssuedBy(exchange: Step, before: State, t: nat, token: Token) {
    && (exchange.ExchangeCode? || exchange.ExchangeRefresh?)
    && (if token.kind == Access then t == exchange.pair.access else t == exchange.pair.refresh)
    && token.expiresAt == before.now + (if token.kind == Access then before.accessTtlMs else before.refreshTtlMs)
    && (exchange.ExchangeCode? ==>
          && token.source == exchange.code && exchange.code in before.codes
          && token.scopes == before.codes[exchange.code].scopes)
    && (exchange.ExchangeRefresh? ==>
          && exchange.token in before.tokens && token.source == before.tokens[exchange.token].source
          && token.scopes == (if exchange.scopes.Some? && exchange.scopes.value != [] then exchange.scopes.value
                              else before.tokens[exchange.token].scopes))
  }

  lemma KeepsToken(s: State, step: Step, t: nat)
    requires Inv(s) && Legal(s, step) && t in s.tokens && t in Apply(s, step).0.tokens
    ensures Apply(s, step).0.tokens[t].(revoked := s.tokens[t].revoked) == s.tokens[t]
  {
    hide Apply, Legal, Inv, MintsFrom;
    TokenIsOk(s, t);
    StepTokens(s, step, t);
  }

  lemma IssuedByCode(s: State, step: Step, t: nat)
    requires Legal(s, step) && step.ExchangeCode? && t !in s.tokens && t in Apply(s, step).0.tokens
    ensures IssuedBy(step, s, t, Apply(s, step).0.tokens[t]) && !Apply(s, step).0.tokens[t].revoked
  {
    hide GrantApproved, ResourceMatches, ResourceAllowed;
  }

  lemma IssuedByRefresh(s: State, step: Step, t: nat)
    requires Legal(s, step) && step.ExchangeRefresh? && t !in s.tokens && t in Apply(s, step).0.tokens
    ensures IssuedBy(step, s, t, Apply(s, step).0.tokens[t]) && !Apply(s, step).0.tokens[t].revoked
  {
    hide GrantApproved, ResourceMatches, ResourceAllowed, Narrowed;
    if step.token in s.tokens {
      NarrowedAll(s.tokens[step.token], step.scopes);
    }
  }

  lemma OnlyExchangesIssue(s: State, step: Step, t: nat)
    requires Inv(s) && Legal(s, step) && t !in s.tokens && t in Apply(s, step).0.tokens
    ensures step.ExchangeCode? || step.ExchangeRefresh?
  {
    hide Apply, Legal, Inv;
    StepTokens(s, step, t);
  }

  /**
   * Every token goes back to one exchange that issued it, unrevoked, for the lifetime of its kind, with the scopes of the code or
   * those the client asked to keep of the token it presented, and never changes but for being revoked.
   */
  lemma {:induction false} TokenOrigin(states: seq<State>, steps: seq<Step>, k: nat, t: nat) returns (e: nat)
    requires Run(states, steps) && k < |states| && t in states[k].tokens
    ensures e < k && IssuedBy(steps[e], states[e], t, states[k].tokens[t])
    ensures Answer(states, steps, e).Issued?
  {
    hide Apply, Legal, Inv;
    if k == 0 {
      assert false;
    } else {
      StepIs(states, steps, k - 1);
      if t in states[k - 1].tokens {
        e := TokenOrigin(states, steps, k - 1, t);
        KeepsToken(states[k - 1], steps[k - 1], t);
      } else {
        e := k - 1;
        OnlyExchangesIssue(states[e], steps[e], t);
        if steps[e].ExchangeCode? {
          IssuedByCode(states[e], steps[e], t);
        } else {
          IssuedByRefresh(states[e], steps[e], t);
        }
        AnsweredIssued(states[e], steps[e], t);
      }
    }
  }

  lemma AnsweredIssued(s: State, step: Step, t: nat)
    requires (step.ExchangeCode? || step.ExchangeRefresh?) && t !in s.tokens && t in Apply(s, step).0.tokens
    ensures Apply(s, step).1.Issued?
  {
    hide GrantApproved, ResourceMatches, ResourceAllowed, Narrowed, IssuePair, RequestedScopes;
  }

  /** An exchange that succeeds answers with the access and the refresh token it stored, in that order, and with their scopes. */
  lemma IssuedAnswers(states: seq<State>, steps: seq<Step>, e: nat)
    requires Run(states, steps) && e < |steps| && (steps[e].ExchangeCode? || steps[e].ExchangeRefresh?) && Answer(states, steps, e).Issued?
    ensures var answer, after := Answer(states, steps, e), states[e + 1];
            && answer.access in after.tokens && after.tokens[answer.access].kind == Access && after.tokens[answer.access].scopes == answer.scopes
            && answer.refresh in after.tokens && after.tokens[answer.refresh].kind == Refresh && after.tokens[answer.refresh].scopes == answer.scopes
            && answer.access !in states[e].tokens && answer.refresh !in states[e].tokens
  {
    hide Inv, GrantApproved, ResourceMatches, ResourceAllowed, Narrowed, RequestedScopes, RevokeClient, RevokeSource;
    StepIs(states, steps, e);
    TokensInUse(states[e]);
  }

  lemma TokensInUse(s: State)
    requires Inv(s)
    ensures s.tokens.Keys <= s.usedIds
  {
  }

  /** From token to question: no token allows anything but what one authorization request of the same registration asked for. */
  lemma NothingUnasked(states: seq<State>, steps: seq<Step>, k: nat, t: nat, scope: string) returns (i: nat, j: nat)
    requires Run(states, steps) && k < |states| && t in states[k].tokens && scope in states[k].tokens[t].scopes
    ensures i < j < k && steps[i].Authorize? && steps[j].Approve? && steps[j].request == steps[i].request
    ensures steps[i].registration == states[k].tokens[t].registration && steps[i].resource == states[k].tokens[t].resource
    ensures scope in ALL_SCOPES && (steps[i].scopes.Some? && steps[i].scopes.value != [] ==> scope in steps[i].scopes.value)
  {
    hide Apply, Legal, Inv;
    Reachable(states, steps, k);
    TokenIsOk(states[k], t);
    i, j := CodeOrigin(states, steps, k, states[k].tokens[t].source);
  }

  /** Both ends of the grant are approved. */
  predicate BothApproved(s: State, registration: nat, client: nat) {
    && registration in s.registrations && s.registrations[registration] == ApprovedRegistration
    && client in s.clients && s.clients[client].trust == Approved
  }

  /** An access token works exactly while it is neither revoked nor expired and registration and client are both approved; a code, and a refresh token, can be exchanged only then. */
  lemma WorksIff(s: State, t: nat)
    ensures Live(s, t) <==>
              t in s.tokens && s.tokens[t].kind == Access && !s.tokens[t].revoked && s.now < s.tokens[t].expiresAt &&
              BothApproved(s, s.tokens[t].registration, s.tokens[t].client)
    ensures forall registration, client :: GrantApproved(s, registration, client) <==> BothApproved(s, registration, client)
  {
  }

  // ---------------------------------------------------------------- refusals

  /** A code exchange is refused for its resource exactly when everything checked before is in order, and otherwise as an invalid grant. */
  lemma CodeRefusals(states: seq<State>, steps: seq<Step>, i: nat)
    requires Run(states, steps) && i < |steps| && steps[i].ExchangeCode? && !Answer(states, steps, i).Issued?
    ensures Answer(states, steps, i) == Refused(InvalidTarget) <==>
              var s, step := states[i], steps[i];
              && step.code in s.codes && s.codes[step.code].registration == step.caller
              && s.codes[step.code].consumedAt.None? && s.now < s.codes[step.code].expiresAt
              && (step.redirectUri.Some? ==> step.redirectUri.value == s.codes[step.code].redirectUri)
              && step.resource.Some?
              && (step.resource.value != s.served || (s.codes[step.code].resource.Some? && s.codes[step.code].resource != step.resource))
    ensures Answer(states, steps, i) in {Refused(InvalidTarget), Refused(InvalidGrant)}
  {
    hide GrantApproved, IssuePair;
  }

  /** A refresh is refused for its scopes, or its resource, exactly when everything checked before is in order, and otherwise as an invalid grant. */
  lemma RefreshRefusals(states: seq<State>, steps: seq<Step>, i: nat)
    requires Run(states, steps) && i < |steps| && steps[i].ExchangeRefresh? && !Answer(states, steps, i).Issued?
    ensures var s, step, answer := states[i], steps[i], Answer(states, steps, i);
            var usable := step.token in s.tokens && s.tokens[step.token].kind == Refresh && !s.tokens[step.token].revoked
                          && s.now < s.tokens[step.token].expiresAt && s.tokens[step.token].registration == step.caller
                          && GrantApproved(s, s.tokens[step.token].registration, s.tokens[step.token].client);
            && (answer == Refused(InvalidScope) <==>
                  usable && step.scopes.Some? && !Within(step.scopes.value, s.tokens[step.token].scopes))
            && (answer == Refused(InvalidTarget) <==>
                  usable && (step.scopes.Some? ==> Within(step.scopes.value, s.tokens[step.token].scopes)) && step.resource.Some?
                  && (step.resource.value != s.served || (s.tokens[step.token].resource.Some? && s.tokens[step.token].resource != step.resource)))
            && answer in {Refused(InvalidScope), Refused(InvalidTarget), Refused(InvalidGrant)}
  {
    hide GrantApproved, IssuePair, Narrowed;
    if steps[i].token in states[i].tokens {
      NarrowedAll(states[i].tokens[steps[i].token], steps[i].scopes);
    }
  }

  // ---------------------------------------------------------------- decisions

  /** The request is open and the caller may decide it. */
  predicate Open(s: State, request: nat, nonceMatches: bool) {
    && request in s.requests && !s.requests[request].decided && s.now < s.requests[request].expiresAt && nonceMatches
    && s.requests[request].registration in s.registrations
    && s.registrations[s.requests[request].registration] != BlockedRegistration
  }

  /** An open request that the owner denies is decided and nothing else changes; no code of it is ever created. */
  lemma DeniedForGood(states: seq<State>, steps: seq<Step>, i: nat, k: nat)
    requires Run(states, steps) && i < k < |states| && steps[i].Deny?
    ensures !Open(states[i], steps[i].request, steps[i].nonceMatches) ==> states[i + 1] == states[i]
    ensures Open(states[i], steps[i].request, steps[i].nonceMatches) ==>
              && steps[i].request in states[i + 1].requests && states[i + 1].requests[steps[i].request].decided
              && states[i + 1] == states[i].(requests := states[i + 1].requests)
              && states[i + 1].requests - {steps[i].request} == states[i].requests - {steps[i].request}
              && (k < |steps| && (steps[k].Approve? || steps[k].Deny?) && steps[k].request == steps[i].request ==> states[k + 1] == states[k])
  {
    hide Inv, ApproveStep;
    StepIs(states, steps, i);
    if Open(states[i], steps[i].request, steps[i].nonceMatches) && k < |steps| && (steps[k].Approve? || steps[k].Deny?) &&
       steps[k].request == steps[i].request {
      StepIs(states, steps, k);
      DecidedOnce(states, steps, i + 1, k, steps[i].request);
    }
  }

  // ---------------------------------------------------------------- trust

  /** The step sets the trust of the client, or may. */
  predicate SetsTrust(step: Step, client: nat) {
    (step.UpdateClient? && step.client == client && step.trust.Some?) || (step.DeleteClient? && step.client == client)
  }

  lemma ExchangeKeepsClients(s: State, step: Step)
    requires step.ExchangeCode? || step.ExchangeRefresh?
    ensures Apply(s, step).0.clients == s.clients && Apply(s, step).0.policies == s.policies
  {
    hide Narrowed, RequestedScopes, GrantApproved, ResourceMatches, ResourceAllowed, RevokeClient, RevokeSource, IssuePair;
    if Apply(s, step).1.Issued? {
      if step.ExchangeCode? {
        IssuedRows(s.(codes := s.codes[step.code := s.codes[step.code].(consumedAt := Some(s.now))]), CodeGrant(s.codes[step.code], step.code), step.pair);
      } else {
        var row := s.tokens[step.token];
        IssuedRows(s.(tokens := s.tokens[step.token := row.(revoked := true)]), row.(scopes := Narrowed(row, step.scopes)), step.pair);
      }
    }
  }

  lemma KeepsBlocked(s: State, step: Step, client: nat)
    requires Legal(s, step) && !SetsTrust(step, client) && client in s.usedIds
    requires client in s.clients && s.clients[client].trust == Blocked
    ensures client in Apply(s, step).0.clients && Apply(s, step).0.clients[client] == s.clients[client]
  {
    hide IssuePair, Narrowed, ResolveRequestedScopes, GrantedOperations, ResourceMatches, RequestedScopes, RevokeClient, RevokeSource;
    if step.ExchangeCode? || step.ExchangeRefresh? {
      ExchangeKeepsClients(s, step);
    }
  }

  lemma {:induction false} StaysBlocked(states: seq<State>, steps: seq<Step>, i: nat, k: nat, client: nat)
    requires Run(states, steps) && i <= k < |states| && client in states[i].clients && states[i].clients[client].trust == Blocked
    requires forall j :: i <= j < k ==> !SetsTrust(steps[j], client)
    ensures client in states[k].clients && states[k].clients[client].trust == Blocked
    decreases k
  {
    hide Apply, Legal, Inv;
    if i < k {
      StaysBlocked(states, steps, i, k - 1, client);
      StepIs(states, steps, k - 1);
      RowsUsed(states[k - 1]);
      KeepsBlocked(states[k - 1], steps[k - 1], client);
    }
  }

  /** The step would issue tokens to the client, or consent for it. */
  predicate ServesClient(s: State, step: Step, client: nat) {
    || (step.ExchangeCode? && step.code in s.codes && s.codes[step.code].client == client)
    || (step.ExchangeRefresh? && step.token in s.tokens && s.tokens[step.token].client == client)
    || (step.Approve? && step.client == client)
  }

  /** A client's trust is what the owner set last: once blocked, and until that is changed, nothing is issued to it, no token of it is live and no consent for it takes effect. */
  lemma BlockedNeverServed(states: seq<State>, steps: seq<Step>, i: nat, k: nat)
    requires Run(states, steps) && i < k < |states| && steps[i].UpdateClient? && steps[i].trust == Some(Blocked)
    requires steps[i].client in states[i].clients && forall j :: i < j < k ==> !SetsTrust(steps[j], steps[i].client)
    ensures steps[i].client in states[k].clients && states[k].clients[steps[i].client].trust == Blocked
    ensures forall t :: t in states[k].tokens && states[k].tokens[t].client == steps[i].client ==> !Live(states[k], t) && states[k].tokens[t].revoked
    ensures k < |steps| && ServesClient(states[k], steps[k], steps[i].client) ==>
              !Answer(states, steps, k).Issued? && (steps[k].Approve? ==> states[k + 1] == states[k])
  {
    hide Legal;
    StepIs(states, steps, i);
    StaysBlocked(states, steps, i + 1, k, steps[i].client);
    Reachable(states, steps, k);
    if k < |steps| && ServesClient(states[k], steps[k], steps[i].client) {
      BlockedIsNotServed(states[k], steps[k], steps[i].client);
    }
  }

  lemma BlockedIsNotServed(s: State, step: Step, client: nat)
    requires client in s.clients && s.clients[client].trust == Blocked && ServesClient(s, step, client)
    ensures !Apply(s, step).1.Issued? && (step.Approve? ==> Apply(s, step).0 == s)
  {
    hide IssuePair, Narrowed, GrantedOperations, ResourceMatches, RequestedScopes, RevokeClient, RevokeSource;
  }

  /** A change of trust is stored as asked, for that client alone; without one the update changes nothing here. */
  lemma TrustIsStored(states: seq<State>, steps: seq<Step>, i: nat)
    requires Run(states, steps) && i < |steps| && steps[i].UpdateClient?
    ensures var client, s, t := steps[i].client, states[i], states[i + 1];
            if client in s.clients && steps[i].trust.Some? then
              client in t.clients && t.clients[client] == s.clients[client].(trust := steps[i].trust.value) &&
              t.clients - {client} == s.clients - {client} && t.tokens.Keys == s.tokens.Keys &&
              forall x :: x in s.tokens ==>
                t.tokens[x] == s.tokens[x].(revoked := s.tokens[x].revoked ||
                  (s.tokens[x].client == client && s.clients[client].registration.Some? && steps[i].trust == Some(Blocked) && s.clients[client].trust != Blocked))
            else t == s
  {
    hide Inv;
    StepIs(states, steps, i);
    if steps[i].client in states[i].clients {
      assert states[i].clients[steps[i].client := states[i].clients[steps[i].client]] == states[i].clients;
    }
  }

  /** Nothing is left of the client. */
  predicate Gone(s: State, client: nat) {
    && client in s.usedIds && client !in s.clients && client !in s.policies
    && (forall c :: c in s.codes ==> s.codes[c].client != client)
    && forall t :: t in s.tokens ==> s.tokens[t].client != client
  }

  lemma StaysGone(s: State, step: Step, client: nat)
    requires Inv(s) && Legal(s, step) && Gone(s, client)
    ensures Gone(Apply(s, step).0, client)
  {
    hide Apply, Legal, MintsFrom, Inv;
    var t := Apply(s, step).0;
    StepKeepsInv(s, step);
    StepTokens(s, step, 0);
    ClientStaysGone(s, step, client);
    GoneIsGone(t, client);
  }

  lemma ClientStaysGone(s: State, step: Step, client: nat)
    requires Legal(s, step) && client in s.usedIds && client !in s.clients && client !in s.policies
    ensures client !in Apply(s, step).0.clients && client !in Apply(s, step).0.policies
  {
    hide IssuePair, Narrowed, ResolveRequestedScopes, GrantedOperations, ResourceMatches, RequestedScopes, RevokeClient, RevokeSource,
         GrantApproved;
    if step.ExchangeCode? || step.ExchangeRefresh? {
      ExchangeKeepsClients(s, step);
    }
  }

  /** Codes and tokens belong to clients that exist. */
  lemma GoneIsGone(s: State, client: nat)
    requires Inv(s) && client in s.usedIds && client !in s.clients && client !in s.policies
    ensures Gone(s, client)
  {
    forall t | t in s.tokens
      ensures s.tokens[t].client != client
    {
      assert TokenOk(s, s.tokens[t]) && CodeOk(s, s.codes[s.tokens[t].source]);
    }
    forall c | c in s.codes
      ensures s.codes[c].client != client
    {
      assert CodeOk(s, s.codes[c]);
    }
  }

  /** Once a client is deleted, no policy, code or token of it exists at any later moment, whatever is approved or exchanged. */
  lemma {:induction false} DeletedForGood(states: seq<State>, steps: seq<Step>, i: nat, k: nat)
    requires Run(states, steps) && i < k < |states| && steps[i].DeleteClient? && steps[i].client in states[i].clients
    ensures Gone(states[k], steps[i].client)
    decreases k
  {
    hide Apply, Legal, Inv, Gone;
    StepIs(states, steps, k - 1);
    if k == i + 1 {
      RowsUsed(states[i]);
      StepKeepsInv(states[i], steps[i]);
      DeletedNow(states[i], steps[i]);
      GoneIsGone(states[k], steps[i].client);
    } else {
      DeletedForGood(states, steps, i, k - 1);
      StaysGone(states[k - 1], steps[k - 1], steps[i].client);
    }
  }

  lemma DeletedNow(s: State, step: Step)
    requires step.DeleteClient? && step.client in s.usedIds
    ensures step.client in Apply(s, step).0.usedIds && step.client !in Apply(s, step).0.clients && step.client !in Apply(s, step).0.policies
  {
  }

  // ---------------------------------------------------------------- permissions

  /** What the scopes of the request stand for. */
  predicate ScopeFor(scopes: seq<string>, op: Operation) {
    ("memory.read" in scopes && op == ReadOperation) || ("memory.suggest" in scopes && op == SuggestOperation)
  }

  /** The step puts the operation into the client's policy: the owner lists it, or consents to a scope that stands for it. */
  predicate Grants(s: State, step: Step, client: nat, op: Operation) {
    || (step.SetPolicy? && step.client == client && op in step.operations)
    || (step.Approve? && step.client == client && step.request in s.requests && ScopeFor(s.requests[step.request].scopes, op))
  }

  lemma PolicyStep(s: State, step: Step, client: nat, op: Operation)
    requires Legal(s, step) && client in Apply(s, step).0.policies && op in Apply(s, step).0.policies[client]
    ensures Grants(s, step, client, op) || (client in s.policies && op in s.policies[client])
    ensures step.SetPolicy? && step.client == client ==> Apply(s, step).0.policies[client] == step.operations
  {
    hide IssuePair, Narrowed, ResolveRequestedScopes, GrantedOperations, ResourceMatches, RequestedScopes, RevokeClient, RevokeSource,
         GrantApproved, ScopesToOperations;
    if step.ExchangeCode? || step.ExchangeRefresh? {
      ExchangeKeepsClients(s, step);
    }
    if step.Approve? && step.request in s.requests && client in s.policies {
      ConsentCoversIff(s.policies[client], s.requests[step.request].scopes);
    }
    if step.Approve? && step.request in s.requests {
      ScopesStandFor(s.requests[step.request].scopes);
      GrantedNew(s.requests[step.request].scopes);
    }
  }

  lemma GrantedNew(scopes: seq<string>)
    ensures GrantedOperations(None, scopes) == ScopesToOperations(scopes)
  {
  }

  lemma ScopesStandFor(scopes: seq<string>)
    ensures forall op :: op in ScopesToOperations(scopes) <==> ScopeFor(scopes, op)
  {
  }

  /** No client has a permission nobody gave it: every operation of a policy goes back to the owner's own list or to a consent. */
  lemma {:induction false} PermissionOrigin(states: seq<State>, steps: seq<Step>, k: nat, client: nat, op: Operation) returns (j: nat)
    requires Run(states, steps) && k < |states| && client in states[k].policies && op in states[k].policies[client]
    ensures j < k && Grants(states[j], steps[j], client, op)
  {
    hide Apply, Legal, Inv, Grants;
    if k == 0 {
      assert false;
    } else {
      StepIs(states, steps, k - 1);
      PolicyStep(states[k - 1], steps[k - 1], client, op);
      if Grants(states[k - 1], steps[k - 1], client, op) {
        j := k - 1;
      } else {
        j := PermissionOrigin(states, steps, k - 1, client, op);
      }
    }
  }

  predicate ReplacesPolicy(step: Step, client: nat) {
    (step.SetPolicy? || step.DropPolicy? || step.DeleteClient?) && step.client == client
  }

  lemma PolicyStays(s: State, step: Step, client: nat)
    requires Legal(s, step) && client in s.policies && !ReplacesPolicy(step, client)
    ensures client in Apply(s, step).0.policies && forall op :: op in s.policies[client] ==> op in Apply(s, step).0.policies[client]
  {
    hide IssuePair, Narrowed, ResolveRequestedScopes, GrantedOperations, ResourceMatches, RequestedScopes, RevokeClient, RevokeSource,
         GrantApproved;
    if step.ExchangeCode? || step.ExchangeRefresh? {
      ExchangeKeepsClients(s, step);
    }
    if step.Approve? && step.request in s.requests {
      ConsentCoversIff(s.policies[client], s.requests[step.request].scopes);
    }
  }

  /** What the owner lists is stored as it is, and no consent takes any of it away. */
  lemma {:induction false} ListedStays(states: seq<State>, steps: seq<Step>, j: nat, k: nat)
    requires Run(states, steps) && j < k < |states| && steps[j].SetPolicy?
    requires forall m :: j < m < k ==> !ReplacesPolicy(steps[m], steps[j].client)
    ensures steps[j].client in states[k].policies && forall op :: op in steps[j].operations ==> op in states[k].policies[steps[j].client]
    ensures k == j + 1 ==> states[k].policies[steps[j].client] == steps[j].operations
    decreases k
  {
    hide Apply, Legal, Inv;
    StepIs(states, steps, k - 1);
    if k == j + 1 {
      ListedNow(states[j], steps[j]);
    } else {
      ListedStays(states, steps, j, k - 1);
      PolicyStays(states[k - 1], steps[k - 1], steps[j].client);
    }
  }

  lemma ListedNow(s: State, step: Step)
    requires step.SetPolicy?
    ensures step.client in Apply(s, step).0.policies && Apply(s, step).0.policies[step.client] == step.operations
  {
  }
}
