/** What every sequence of authorizations, exchanges, revocations and client changes keeps. */
module OAuthRuns {
  import opened Common
  import opened OAuth

  // ---------------------------------------------------------------- the invariant

  /** A code belongs to a connector client that exists. */
  predicate CodeOk(s: State, c: Code) {
    c.client in s.clients && s.clients[c.client].registration == Some(c.registration)
  }

  /** Every scope of the list is granted. */
  predicate Within(scopes: seq<string>, granted: seq<string>) {
    forall scope :: scope in scopes ==> scope in granted
  }

  /** A token stays inside the code it descends from: same client, registration and resource, no more scopes. */
  predicate TokenOk(s: State, t: Token) {
    && t.source in s.codes
    && s.codes[t.source].consumedAt.Some?
    && t.client == s.codes[t.source].client && t.registration == s.codes[t.source].registration
    && t.resource == s.codes[t.source].resource
    && Within(t.scopes, s.codes[t.source].scopes)
  }

  predicate LineageOk(s: State) {
    && s.clients.Keys <= s.usedIds && s.requests.Keys <= s.usedIds && s.codes.Keys <= s.usedIds && s.tokens.Keys <= s.usedIds
    && (forall c :: c in s.codes ==> CodeOk(s, s.codes[c]))
    && (forall t :: t in s.tokens ==> TokenOk(s, s.tokens[t]))
  }

  /** An unrevoked refresh token. */
  predicate Unspent(s: State, t: nat, code: nat) {
    t in s.tokens && s.tokens[t].kind == Refresh && !s.tokens[t].revoked && s.tokens[t].source == code
  }

  /** At most one unrevoked refresh token descends from a code. */
  ghost predicate OneRefresh(s: State, code: nat) {
    forall t, u :: Unspent(s, t, code) && Unspent(s, u, code) ==> t == u
  }

  /** A blocked connector has no unrevoked token. */
  predicate CutOff(s: State, t: Token) {
    t.client in s.clients && s.clients[t.client].trust == Blocked ==> t.revoked
  }

  predicate BlockedOk(s: State) {
    forall t :: t in s.tokens ==> CutOff(s, s.tokens[t])
  }

  ghost predicate Inv(s: State) {
    LineageOk(s) && BlockedOk(s) && forall code: nat :: OneRefresh(s, code)
  }

  // ---------------------------------------------------------------- issuing

  lemma NarrowedWithin(t: Token, scopes: Option<seq<string>>)
    ensures Within(Narrowed(t, scopes), t.scopes)
  {
    FilterMembers(RequestedScopes(t, scopes), (scope: string) => scope in t.scopes);
  }

  /** A grant that may be issued from: no unrevoked refresh token left, client not blocked. */
  predicate MayIssue(s: State, grant: Token) {
    TokenOk(s, grant) && GrantApproved(s, grant.registration, grant.client) && forall t :: t in s.tokens ==> !Unspent(s, t, grant.source)
  }

  lemma IssueKeeps(s: State, grant: Token, pair: Pair)
    requires Inv(s) && MayIssue(s, grant) && FreshPair(s, pair)
    ensures Inv(IssuePair(s, grant, pair))
  {
    var after := IssuePair(s, grant, pair);
    assert pair.access !in s.tokens && pair.refresh !in s.tokens;
    forall t | t in after.tokens
      ensures TokenOk(after, after.tokens[t]) && CutOff(after, after.tokens[t])
    {
      if t in s.tokens {
        assert TokenOk(s, s.tokens[t]) && CutOff(s, s.tokens[t]);
      }
    }
    forall c | c in after.codes
      ensures CodeOk(after, after.codes[c])
    {
      assert CodeOk(s, s.codes[c]);
    }
    forall code: nat
      ensures OneRefresh(after, code)
    {
      assert OneRefresh(s, code);
      forall t, u | Unspent(after, t, code) && Unspent(after, u, code)
        ensures t == u
      {
        assert t != pair.refresh ==> Unspent(s, t, code);
        assert u != pair.refresh ==> Unspent(s, u, code);
      }
    }
  }

  /** Revoking tokens and nothing else keeps the invariant. */
  predicate OnlyRevokes(s: State, after: State) {
    && after == s.(tokens := after.tokens)
    && after.tokens.Keys == s.tokens.Keys
    && forall t :: t in s.tokens ==> after.tokens[t] == s.tokens[t] || after.tokens[t] == s.tokens[t].(revoked := true)
  }

  lemma RevokingKeeps(s: State, after: State)
    requires Inv(s) && OnlyRevokes(s, after)
    ensures Inv(after)
  {
    forall t | t in after.tokens
      ensures TokenOk(after, after.tokens[t]) && CutOff(after, after.tokens[t])
    {
      assert TokenOk(s, s.tokens[t]) && CutOff(s, s.tokens[t]);
    }
    forall c | c in after.codes
      ensures CodeOk(after, after.codes[c])
    {
      assert CodeOk(s, s.codes[c]);
    }
    forall code: nat
      ensures OneRefresh(after, code)
    {
      assert OneRefresh(s, code);
      assert forall t :: Unspent(after, t, code) ==> Unspent(s, t, code);
    }
  }

  lemma ConsumeKeeps(s: State, code: nat)
    requires Inv(s) && code in s.codes && s.codes[code].consumedAt.None?
    ensures var after := s.(codes := s.codes[code := s.codes[code].(consumedAt := Some(s.now))]);
            Inv(after) && forall t :: t in after.tokens ==> !Unspent(after, t, code)
  {
    var after := s.(codes := s.codes[code := s.codes[code].(consumedAt := Some(s.now))]);
    forall t | t in after.tokens
      ensures TokenOk(after, after.tokens[t]) && CutOff(after, after.tokens[t]) && !Unspent(after, t, code)
    {
      assert TokenOk(s, s.tokens[t]) && CutOff(s, s.tokens[t]);
    }
    forall c | c in after.codes
      ensures CodeOk(after, after.codes[c])
    {
      assert CodeOk(s, s.codes[c]);
    }
    forall k: nat
      ensures OneRefresh(after, k)
    {
      assert OneRefresh(s, k);
      assert forall t :: Unspent(after, t, k) ==> Unspent(s, t, k);
    }
  }

  lemma ExchangeCodeKeeps(s: State, step: Step)
    requires Inv(s) && step.ExchangeCode? && Legal(s, step)
    ensures Inv(Apply(s, step).0)
  {
    hide Inv, IssuePair, ResourceAllowed, ResourceMatches;
    if Apply(s, step).1.Issued? {
      var c := s.codes[step.code];
      var consumed := s.(codes := s.codes[step.code := c.(consumedAt := Some(s.now))]);
      ConsumeKeeps(s, step.code);
      IssueKeeps(consumed, CodeGrant(c, step.code), step.pair);
    } else if Apply(s, step).0 != s {
      RevokingKeeps(s, Apply(s, step).0);
    }
  }

  lemma SpendKeeps(s: State, token: nat)
    requires Inv(s) && token in s.tokens && s.tokens[token].kind == Refresh && !s.tokens[token].revoked
    ensures var after := s.(tokens := s.tokens[token := s.tokens[token].(revoked := true)]);
            Inv(after) && forall t :: t in after.tokens ==> !Unspent(after, t, s.tokens[token].source)
  {
    var code := s.tokens[token].source;
    var after := s.(tokens := s.tokens[token := s.tokens[token].(revoked := true)]);
    RevokingKeeps(s, after);
    assert OneRefresh(s, code) && Unspent(s, token, code);
    forall t | t in after.tokens
      ensures !Unspent(after, t, code)
    {
      assert Unspent(after, t, code) ==> Unspent(s, t, code);
    }
  }

  lemma ExchangeRefreshKeeps(s: State, step: Step)
    requires Inv(s) && step.ExchangeRefresh? && Legal(s, step)
    ensures Inv(Apply(s, step).0)
  {
    hide Inv, IssuePair, ResourceAllowed, ResourceMatches, Narrowed, RequestedScopes;
    if Apply(s, step).1.Issued? {
      var t := s.tokens[step.token];
      var spent := s.(tokens := s.tokens[step.token := t.(revoked := true)]);
      SpendKeeps(s, step.token);
      NarrowedWithin(t, step.scopes);
      TokenIsOk(s, step.token);
      assert TokenOk(spent, t.(scopes := Narrowed(t, step.scopes)));
      IssueKeeps(spent, t.(scopes := Narrowed(t, step.scopes)), step.pair);
    } else if Apply(s, step).0 != s {
      RevokingKeeps(s, Apply(s, step).0);
    }
  }

  lemma TokenIsOk(s: State, t: nat)
    requires Inv(s) && t in s.tokens
    ensures TokenOk(s, s.tokens[t]) && t in s.usedIds
  {
  }

  lemma ApproveKeeps(s: State, step: Step)
    requires Inv(s) && step.Approve? && Legal(s, step)
    ensures Inv(Apply(s, step).0)
  {
    hide GrantedOperations;
    var after := Apply(s, step).0;
    if after != s {
      assert step.code !in s.codes;
      forall c | c in after.codes
        ensures CodeOk(after, after.codes[c])
      {
        if c != step.code {
          assert CodeOk(s, s.codes[c]);
        }
      }
      forall t | t in after.tokens
        ensures TokenOk(after, after.tokens[t]) && CutOff(after, after.tokens[t])
      {
        assert TokenOk(s, s.tokens[t]) && CutOff(s, s.tokens[t]);
      }
      forall code: nat
        ensures OneRefresh(after, code)
      {
        assert OneRefresh(s, code);
        assert forall t :: Unspent(after, t, code) ==> Unspent(s, t, code);
      }
    }
  }

  /** A change of trust, once the tokens a newly blocked connector had are revoked. */
  lemma TrustKeeps(s: State, client: nat, trust: Trust)
    requires Inv(s) && client in s.clients
    requires trust == Blocked ==> forall t :: t in s.tokens && s.tokens[t].client == client ==> s.tokens[t].revoked
    ensures Inv(s.(clients := s.clients[client := s.clients[client].(trust := trust)]))
  {
    var after := s.(clients := s.clients[client := s.clients[client].(trust := trust)]);
    forall t | t in after.tokens
      ensures TokenOk(after, after.tokens[t]) && CutOff(after, after.tokens[t])
    {
      assert TokenOk(s, s.tokens[t]) && CutOff(s, s.tokens[t]);
    }
    forall c | c in after.codes
      ensures CodeOk(after, after.codes[c])
    {
      assert CodeOk(s, s.codes[c]);
    }
    forall code: nat
      ensures OneRefresh(after, code)
    {
      assert OneRefresh(s, code);
      assert forall t :: Unspent(after, t, code) ==> Unspent(s, t, code);
    }
  }

  lemma UpdateClientKeeps(s: State, client: nat, trust: Option<Trust>)
    requires Inv(s)
    ensures Inv(UpdateClientStep(s, client, trust))
  {
    hide Inv;
    if client in s.clients {
      var existing := s.clients[client];
      var next := if trust.Some? then trust.value else existing.trust;
      var cut := existing.registration.Some? && trust == Some(Blocked) && existing.trust != Blocked;
      var revoked := if cut then s.(tokens := RevokeClient(s.tokens, client)) else s;
      if cut {
        RevokingKeeps(s, revoked);
      } else if next == Blocked {
        AlreadyCutOff(s, client);
      }
      TrustKeeps(revoked, client, next);
    }
  }

  /** A client that is no connector has no tokens, and a blocked connector none that is unrevoked. */
  lemma AlreadyCutOff(s: State, client: nat)
    requires Inv(s) && client in s.clients && (s.clients[client].registration.None? || s.clients[client].trust == Blocked)
    ensures forall t :: t in s.tokens && s.tokens[t].client == client ==> s.tokens[t].revoked
  {
  }

  lemma DeleteClientKeeps(s: State, client: nat)
    requires Inv(s)
    ensures Inv(DeleteClientStep(s, client))
  {
    var after := DeleteClientStep(s, client);
    forall t | t in after.tokens
      ensures TokenOk(after, after.tokens[t]) && CutOff(after, after.tokens[t])
    {
      assert TokenOk(s, s.tokens[t]) && CutOff(s, s.tokens[t]);
    }
    forall c | c in after.codes
      ensures CodeOk(after, after.codes[c])
    {
      assert CodeOk(s, s.codes[c]);
    }
    forall code: nat
      ensures OneRefresh(after, code)
    {
      assert OneRefresh(s, code);
      assert forall t :: Unspent(after, t, code) ==> Unspent(s, t, code);
    }
  }

  /** A step that touches neither codes nor tokens, and no connector client. */
  lemma QuietKeeps(s: State, after: State)
    requires Inv(s)
    requires after.codes == s.codes && after.tokens == s.tokens && s.usedIds <= after.usedIds
    requires after.clients.Keys <= after.usedIds && after.requests.Keys <= after.usedIds
    requires forall c :: c in s.clients ==> c in after.clients && after.clients[c] == s.clients[c]
    ensures Inv(after)
  {
    forall t | t in after.tokens
      ensures TokenOk(after, after.tokens[t]) && CutOff(after, after.tokens[t])
    {
      assert TokenOk(s, s.tokens[t]) && CutOff(s, s.tokens[t]) && CodeOk(s, s.codes[s.tokens[t].source]);
    }
    forall c | c in after.codes
      ensures CodeOk(after, after.codes[c])
    {
      assert CodeOk(s, s.codes[c]);
    }
    forall code: nat
      ensures OneRefresh(after, code)
    {
      assert OneRefresh(s, code);
      assert forall t :: Unspent(after, t, code) ==> Unspent(s, t, code);
    }
  }

  lemma RevokesClient(s: State, client: nat)
    ensures OnlyRevokes(s, s.(tokens := RevokeClient(s.tokens, client)))
  {
  }

  lemma RevokesOne(s: State, token: nat)
    requires token in s.tokens
    ensures OnlyRevokes(s, s.(tokens := s.tokens[token := s.tokens[token].(revoked := true)]))
  {
  }

  lemma RevokeTokenKeeps(s: State, caller: nat, token: nat)
    requires Inv(s)
    ensures Inv(RevokeTokenStep(s, caller, token))
  {
    hide Inv, OnlyRevokes;
    if RevokeTokenStep(s, caller, token) != s {
      if s.tokens[token].kind == Refresh {
        RevokesClient(s, s.tokens[token].client);
      } else {
        RevokesOne(s, token);
      }
      RevokingKeeps(s, RevokeTokenStep(s, caller, token));
    }
  }

  lemma RowsUsed(s: State)
    requires Inv(s)
    ensures s.clients.Keys <= s.usedIds && s.requests.Keys <= s.usedIds
  {
  }

  lemma StepKeepsInv(s: State, step: Step)
    requires Inv(s) && Legal(s, step)
    ensures Inv(Apply(s, step).0)
  {
    hide Inv, ExchangeCodeStep, ExchangeRefreshStep, ApproveStep, UpdateClientStep, DeleteClientStep, ResolveRequestedScopes,
         RevokeTokenStep;
    match step
    case ExchangeCode(_, _, _, _, _) => ExchangeCodeKeeps(s, step);
    case ExchangeRefresh(_, _, _, _, _) => ExchangeRefreshKeeps(s, step);
    case Approve(_, _, _, _) => ApproveKeeps(s, step);
    case UpdateClient(client, trust) => UpdateClientKeeps(s, client, trust);
    case DeleteClient(client) => DeleteClientKeeps(s, client);
    case RevokeToken(caller, token) => RevokeTokenKeeps(s, caller, token);
    case _ =>
      RowsUsed(s);
      QuietKeeps(s, Apply(s, step).0);
  }

  lemma {:induction false} Reachable(states: seq<State>, steps: seq<Step>, k: nat)
    requires Run(states, steps) && k < |states|
    ensures Inv(states[k])
  {
    hide Apply, Legal, Inv;
    if k == 0 {
      EmptyOk(states[0]);
    } else {
      Reachable(states, steps, k - 1);
      StepKeepsInv(states[k - 1], steps[k - 1]);
    }
  }

  lemma EmptyOk(s: State)
    requires Empty(s)
    ensures Inv(s)
  {
  }

  // ---------------------------------------------------------------- revocation is for good

  /** A credential that was handed out and does not work any more: revoked, or its row is gone. */
  predicate Dead(s: State, t: nat) {
    t in s.usedIds && (t in s.tokens ==> s.tokens[t].revoked)
  }

  /** The step mints tokens from the code: by exchanging it unconsumed, or an unspent refresh token of it. */
  predicate MintsFrom(s: State, step: Step, code: nat) {
    || (step.ExchangeCode? && step.code == code && code in s.codes && s.codes[code].consumedAt.None?)
    || (step.ExchangeRefresh? && Unspent(s, step.token, code))
  }

  /** Where a token row after a step comes from: an older row, at most revoked meanwhile, or a mint. */
  predicate Came(s: State, step: Step, after: Token, t: nat) {
    || (t in s.tokens && (after == s.tokens[t] || after == s.tokens[t].(revoked := true)))
    || (t !in s.usedIds && MintsFrom(s, step, after.source))
  }

  /** An issued pair adds two rows with the grant's source and changes nothing else. */
  lemma IssuedRows(s: State, grant: Token, pair: Pair)
    ensures var after := IssuePair(s, grant, pair);
            && s.usedIds <= after.usedIds && after == s.(tokens := after.tokens, usedIds := after.usedIds)
            && forall t :: t in after.tokens ==>
                 if t == pair.access || t == pair.refresh then after.tokens[t].source == grant.source
                 else t in s.tokens && after.tokens[t] == s.tokens[t]
  {
  }

  lemma CodeTokens(s: State, step: Step, t: nat)
    requires Legal(s, step) && step.ExchangeCode? && t in Apply(s, step).0.tokens
    ensures Came(s, step, Apply(s, step).0.tokens[t], t)
  {
    hide GrantApproved, ResourceMatches, ResourceAllowed, IssuePair, Legal;
    if Apply(s, step).1.Issued? {
      IssuedRows(s.(codes := s.codes[step.code := s.codes[step.code].(consumedAt := Some(s.now))]), CodeGrant(s.codes[step.code], step.code), step.pair);
      FreshIds(s, step, step.pair);
    }
  }

  lemma RefreshTokens(s: State, step: Step, t: nat)
    requires Legal(s, step) && step.ExchangeRefresh? && t in Apply(s, step).0.tokens
    ensures Came(s, step, Apply(s, step).0.tokens[t], t)
  {
    hide GrantApproved, ResourceMatches, ResourceAllowed, IssuePair, Legal, Narrowed, RequestedScopes;
    if Apply(s, step).1.Issued? {
      var row := s.tokens[step.token];
      IssuedRows(s.(tokens := s.tokens[step.token := row.(revoked := true)]), row.(scopes := Narrowed(row, step.scopes)), step.pair);
      FreshIds(s, step, step.pair);
    }
  }

  lemma FreshIds(s: State, step: Step, pair: Pair)
    requires Legal(s, step) && (step.ExchangeCode? || step.ExchangeRefresh?) && pair == step.pair
    ensures pair.access !in s.usedIds && pair.refresh !in s.usedIds
  {
  }

  lemma OtherTokens(s: State, step: Step, t: nat)
    requires Legal(s, step) && !step.ExchangeCode? && !step.ExchangeRefresh?
    ensures s.usedIds <= Apply(s, step).0.usedIds
    ensures t in Apply(s, step).0.tokens ==> Came(s, step, Apply(s, step).0.tokens[t], t)
  {
    hide ExchangeCodeStep, ExchangeRefreshStep, ResolveRequestedScopes, GrantedOperations, PendingRequest, GrantClient;
  }

  lemma StepTokens(s: State, step: Step, t: nat)
    requires Legal(s, step)
    ensures s.usedIds <= Apply(s, step).0.usedIds
    ensures t in Apply(s, step).0.tokens ==> Came(s, step, Apply(s, step).0.tokens[t], t)
  {
    hide Apply, Legal, Came;
    if step.ExchangeCode? || step.ExchangeRefresh? {
      if t in Apply(s, step).0.tokens {
        if step.ExchangeCode? { CodeTokens(s, step, t); } else { RefreshTokens(s, step, t); }
      }
      ExchangeUses(s, step);
    } else {
      OtherTokens(s, step, t);
    }
  }

  lemma ExchangeUses(s: State, step: Step)
    requires step.ExchangeCode? || step.ExchangeRefresh?
    ensures s.usedIds <= Apply(s, step).0.usedIds
    ensures forall c :: c in Apply(s, step).0.codes <==> c in s.codes
    ensures forall c :: c in s.codes && s.codes[c].consumedAt.Some? ==> Apply(s, step).0.codes[c] == s.codes[c]
  {
    hide Narrowed, RequestedScopes, GrantApproved, ResourceMatches, ResourceAllowed, RevokeClient, RevokeSource, IssuePair;
    if Apply(s, step).1.Issued? {
      if step.ExchangeCode? {
        IssuedRows(s.(codes := s.codes[step.code := s.codes[step.code].(consumedAt := Some(s.now))]), CodeGrant(s.codes[step.code], step.code), step.pair);
      } else {
        var row := s.tokens[step.token];
        IssuedRows(s.(tokens := s.tokens[step.token := row.(revoked := true)]), row.(scopes := Narrowed(row, step.scopes)), step.pair);
      }
    }
  }

  lemma StepKeepsDead(s: State, step: Step, t: nat)
    requires Legal(s, step) && Dead(s, t)
    ensures Dead(Apply(s, step).0, t)
  {
    hide Apply, Legal, MintsFrom;
    StepTokens(s, step, t);
  }

  lemma {:induction false} DeadForever(states: seq<State>, steps: seq<Step>, i: nat, j: nat, t: nat)
    requires Run(states, steps) && i <= j < |states| && Dead(states[i], t)
    ensures Dead(states[j], t) && !Live(states[j], t)
    decreases j
  {
    hide Apply, Legal, Inv;
    if i < j {
      DeadForever(states, steps, i, j - 1, t);
      StepKeepsDead(states[j - 1], steps[j - 1], t);
    }
  }

  predicate Consumed(s: State, code: nat) {
    code in s.usedIds && (code in s.codes ==> s.codes[code].consumedAt.Some?)
  }

  lemma StepKeepsConsumed(s: State, step: Step, code: nat)
    requires Legal(s, step) && Consumed(s, code)
    ensures Consumed(Apply(s, step).0, code)
  {
    hide ExchangeCodeStep, ExchangeRefreshStep, ResolveRequestedScopes, GrantedOperations;
    if step.ExchangeCode? || step.ExchangeRefresh? {
      ExchangeUses(s, step);
    }
  }

  // ---------------------------------------------------------------- a dead code lineage

  /** The code is used up and every token that descends from it is revoked. */
  predicate LineageDead(s: State, code: nat) {
    && Consumed(s, code)
    && forall t :: t in s.tokens && s.tokens[t].source == code ==> s.tokens[t].revoked
  }

  lemma StepKeepsLineageDead(s: State, step: Step, code: nat)
    requires Legal(s, step) && LineageDead(s, code)
    ensures LineageDead(Apply(s, step).0, code)
  {
    hide Apply, Legal;
    StepKeepsConsumed(s, step, code);
    StepTokens(s, step, 0);
    forall t | t in Apply(s, step).0.tokens && Apply(s, step).0.tokens[t].source == code
      ensures Apply(s, step).0.tokens[t].revoked
    {
      StepTokens(s, step, t);
    }
  }

  lemma {:induction false} LineageDeadForever(states: seq<State>, steps: seq<Step>, i: nat, j: nat, code: nat)
    requires Run(states, steps) && i <= j < |states| && LineageDead(states[i], code)
    ensures LineageDead(states[j], code)
    decreases j
  {
    hide Apply, Legal, Inv, LineageDead;
    if i < j {
      LineageDeadForever(states, steps, i, j - 1, code);
      StepKeepsLineageDead(states[j - 1], steps[j - 1], code);
    }
  }

  /**
   * Replay (section 4.1.2 of RFC 6749): once a consumed code is presented again, no token of its lineage
   * is live at any later moment, whatever is exchanged, approved or issued in between.
   */
  lemma ReplayKillsLineage(states: seq<State>, steps: seq<Step>, k: nat, j: nat, t: nat)
    requires Run(states, steps) && k < |steps| && k + 1 <= j < |states|
    requires steps[k].ExchangeCode?
    requires var code := steps[k].code;
             code in states[k].codes && states[k].codes[code].registration == steps[k].caller && states[k].codes[code].consumedAt.Some?
    requires t in states[j].tokens && states[j].tokens[t].source == steps[k].code
    ensures !Live(states[j], t) && states[j].tokens[t].revoked
    ensures Apply(states[k], steps[k]).1 == Refused(InvalidGrant)
  {
    hide Inv, Legal, IssuePair;
    Reachable(states, steps, k);
    CodeUsed(states[k], steps[k].code);
    LineageDeadForever(states, steps, k + 1, j, steps[k].code);
  }

  lemma CodeUsed(s: State, code: nat)
    requires Inv(s) && code in s.codes
    ensures code in s.usedIds
  {
  }

  // ---------------------------------------------------------------- refresh rotation and cut-off

  /**
   * Refresh rotation (section 6 of RFC 6749, section 4.14.2 of RFC 9700): presenting a spent refresh token
   * kills every token the client has at that moment, for good.
   */
  lemma SpentRefreshKillsGrant(states: seq<State>, steps: seq<Step>, k: nat, j: nat, t: nat)
    requires Run(states, steps) && k < |steps| && k + 1 <= j < |states|
    requires steps[k].ExchangeRefresh?
    requires var token := steps[k].token;
             token in states[k].tokens && states[k].tokens[token].kind == Refresh && states[k].tokens[token].revoked &&
             t in states[k].tokens && states[k].tokens[t].client == states[k].tokens[token].client
    ensures !Live(states[j], t) && Dead(states[j], t)
    ensures Apply(states[k], steps[k]).1 == Refused(InvalidGrant)
  {
    hide Inv, Legal, IssuePair, Narrowed;
    Reachable(states, steps, k);
    TokenIsOk(states[k], t);
    DeadForever(states, steps, k + 1, j, t);
  }

  /** Blocking a connector kills the tokens issued before, and approving it again revives none of them. */
  lemma BlockingKillsTokens(states: seq<State>, steps: seq<Step>, k: nat, j: nat, t: nat)
    requires Run(states, steps) && k < |steps| && k + 1 <= j < |states|
    requires steps[k].UpdateClient? && steps[k].trust == Some(Blocked)
    requires t in states[k].tokens && states[k].tokens[t].client == steps[k].client
    ensures !Live(states[j], t) && Dead(states[j], t)
  {
    hide Legal;
    Reachable(states, steps, k);
    TokenIsOk(states[k], t);
    BlockedNow(states[k], steps[k].client, t);
    DeadForever(states, steps, k + 1, j, t);
  }

  lemma BlockedNow(s: State, client: nat, t: nat)
    requires Inv(s) && t in s.tokens && s.tokens[t].client == client
    ensures Dead(UpdateClientStep(s, client, Some(Blocked)), t)
  {
  }

  /** Deleting a client, or revoking a refresh token, is as final. */
  lemma RevocationEndsGrant(states: seq<State>, steps: seq<Step>, k: nat, j: nat, t: nat)
    requires Run(states, steps) && k < |steps| && k + 1 <= j < |states| && t in states[k].tokens
    requires (steps[k].DeleteClient? && states[k].tokens[t].client == steps[k].client) ||
             (steps[k].RevokeToken? && steps[k].token in states[k].tokens && !states[k].tokens[steps[k].token].revoked &&
              states[k].tokens[steps[k].token].registration == steps[k].caller &&
              (t == steps[k].token ||
               (states[k].tokens[steps[k].token].kind == Refresh && states[k].tokens[t].client == states[k].tokens[steps[k].token].client)))
    ensures !Live(states[j], t) && Dead(states[j], t)
  {
    hide Inv, Legal;
    Reachable(states, steps, k);
    TokenIsOk(states[k], t);
    DeadForever(states, steps, k + 1, j, t);
  }

  /** A token of another registration cannot be revoked, and revoking an access token leaves all others alone. */
  lemma RevocationIsOwn(s: State, caller: nat, token: nat, t: nat)
    requires t in s.tokens
    ensures t in RevokeTokenStep(s, caller, token).tokens
    ensures RevokeTokenStep(s, caller, token).tokens[t] != s.tokens[t] ==>
              && token in s.tokens && s.tokens[token].registration == caller && !s.tokens[token].revoked
              && (t == token || (s.tokens[token].kind == Refresh && s.tokens[t].client == s.tokens[token].client))
  {
  }

  /** In every reachable state: the lineage invariant, spelled out. */
  lemma RefreshLineage(states: seq<State>, steps: seq<Step>, k: nat, t: nat, u: nat)
    requires Run(states, steps) && k < |states| && t in states[k].tokens
    ensures var s := states[k];
            s.tokens[t].source in s.codes && s.tokens[t].resource == s.codes[s.tokens[t].source].resource &&
            Within(s.tokens[t].scopes, s.codes[s.tokens[t].source].scopes)
    ensures var s := states[k];
            Unspent(s, t, s.tokens[t].source) && Unspent(s, u, s.tokens[t].source) ==> t == u
  {
    Reachable(states, steps, k);
    assert TokenOk(states[k], states[k].tokens[t]) && OneRefresh(states[k], states[k].tokens[t].source);
  }

  // ---------------------------------------------------------------- scopes

  /** Requested scopes are refused exactly when one is unsupported; otherwise each is kept once, and none means all. */
  lemma ScopesResolve(scopes: seq<string>)
    ensures ResolveRequestedScopes(Some(scopes)).None? <==> exists scope :: scope in scopes && scope !in SUPPORTED_SCOPES
    ensures ResolveRequestedScopes(Some(scopes)).Some? ==>
              var granted := ResolveRequestedScopes(Some(scopes)).value;
              Distinct(granted) && Within(granted, SUPPORTED_SCOPES) &&
              (forall scope :: scope in granted <==> scope in (if scopes == [] then SUPPORTED_SCOPES else scopes))
  {
    UniqueExactly(scopes);
    assert SCOPE_READ[7] != SCOPE_SUGGEST[7];
  }

  /** The merged list has every operation of the policy and of the scopes, once, and no other. */
  lemma MergedOperations(existing: seq<Operation>, scopes: seq<string>)
    ensures Distinct(ResultingOperations(existing, scopes))
    ensures Elements(ResultingOperations(existing, scopes)) == Elements(existing) + Elements(ScopesToOperations(scopes))
    ensures |ResultingOperations(existing, scopes)| == |Elements(existing) + Elements(ScopesToOperations(scopes))|
  {
    UniqueExactly(existing + ScopesToOperations(scopes));
    DistinctIffCardinality(ResultingOperations(existing, scopes));
  }

  /** Every operation the scopes stand for is in the list. */
  predicate Covers(operations: seq<Operation>, scopes: seq<string>) {
    forall op :: op in ScopesToOperations(scopes) ==> op in operations
  }

  /** The operations of the scopes that the policy does not have yet. */
  function MissingOperations(existing: seq<Operation>, scopes: seq<string>): set<Operation> {
    Elements(ScopesToOperations(scopes)) - Elements(existing)
  }

  /**
   * After consent the policy covers the scopes exactly when it did before or the merged list has another
   * length; put differently, unless it repeats exactly as many entries as it misses operations.
   */
  lemma ConsentCoversIff(existing: seq<Operation>, scopes: seq<string>)
    ensures Covers(GrantedOperations(Some(existing), scopes), scopes) <==>
              Covers(existing, scopes) || |Unique(existing + ScopesToOperations(scopes))| != |existing|
    ensures Covers(GrantedOperations(Some(existing), scopes), scopes) <==>
              MissingOperations(existing, scopes) == {} || |existing| - |Elements(existing)| != |MissingOperations(existing, scopes)|
    ensures forall op :: op in existing ==> op in GrantedOperations(Some(existing), scopes)
    ensures forall op :: op in GrantedOperations(Some(existing), scopes) ==> op in existing || op in ScopesToOperations(scopes)
  {
    var merged, ops := ResultingOperations(existing, scopes), ScopesToOperations(scopes);
    MergedOperations(existing, scopes);
    assert forall op :: op in merged <==> op in Elements(merged);
    assert forall op :: op in ops <==> op in Elements(ops);
    assert Elements(existing) + Elements(ops) == Elements(existing) + MissingOperations(existing, scopes);
    assert Covers(existing, scopes) <==> MissingOperations(existing, scopes) == {};
  }

  /** A policy without repetitions, and a missing one, always cover the scopes after consent. */
  lemma ConsentCoversDistinct(existing: Option<seq<Operation>>, scopes: seq<string>)
    requires existing.Some? ==> Distinct(existing.value)
    ensures Covers(GrantedOperations(existing, scopes), scopes)
  {
    if existing.Some? {
      ConsentCoversIff(existing.value, scopes);
      DistinctIffCardinality(existing.value);
    }
  }

  /** A policy that lists READ twice keeps its length when SUGGEST is merged in, and is not rewritten. */
  lemma ConsentMissesSuggest()
    ensures GrantedOperations(Some([ReadOperation, ReadOperation]), [SCOPE_SUGGEST]) == [ReadOperation, ReadOperation]
    ensures !Covers(GrantedOperations(Some([ReadOperation, ReadOperation]), [SCOPE_SUGGEST]), [SCOPE_SUGGEST])
  {
    hide ScopesToOperations, ResultingOperations;
    var existing := [ReadOperation, ReadOperation];
    SuggestScope();
    MergedOperations(existing, [SCOPE_SUGGEST]);
    assert Elements(existing) + Elements([SuggestOperation]) == {ReadOperation, SuggestOperation};
  }

  lemma SuggestScope()
    ensures ScopesToOperations([SCOPE_SUGGEST]) == [SuggestOperation]
  {
    assert SCOPE_READ[7] != SCOPE_SUGGEST[7];
  }

  // ---------------------------------------------------------------- consent

  /** Consent takes effect exactly for a pending request whose client is not blocked; then the code is the request's. */
  lemma ConsentIff(s: State, request: nat, nonceMatches: bool, client: nat, code: nat)
    requires code !in s.codes
    ensures var after := ApproveStep(s, request, nonceMatches, client, code);
            code in after.codes <==> PendingRequest(s, request, nonceMatches) && !(client in s.clients && s.clients[client].trust == Blocked)
    ensures var after := ApproveStep(s, request, nonceMatches, client, code);
            code in after.codes ==>
              var r, c := s.requests[request], after.codes[code];
              && c.registration == r.registration && c.redirectUri == r.redirectUri && c.scopes == r.scopes && c.resource == r.resource
              && c.consumedAt.None? && GrantApproved(after, c.registration, c.client) && after.requests[request].decided
    ensures var after := ApproveStep(s, request, nonceMatches, client, code);
            code in after.codes ==>
              client in after.policies &&
              (Covers(after.policies[client], after.codes[code].scopes) <==>
                 client !in s.policies
                 || Covers(s.policies[client], s.requests[request].scopes)
                 || |Unique(s.policies[client] + ScopesToOperations(s.requests[request].scopes))| != |s.policies[client]|)
  {
    hide Covers, Unique, ScopesToOperations, GrantedOperations;
    if request in s.requests {
      if client in s.policies {
        ConsentCoversIff(s.policies[client], s.requests[request].scopes);
      } else {
        ConsentCoversDistinct(None, s.requests[request].scopes);
      }
    }
  }

  /** A request that was handed out and is no longer open: decided or gone. */
  predicate Closed(s: State, request: nat) {
    request in s.usedIds && (request in s.requests ==> s.requests[request].decided)
  }

  lemma StepKeepsClosed(s: State, step: Step, request: nat)
    requires Legal(s, step) && Closed(s, request)
    ensures Closed(Apply(s, step).0, request)
  {
    hide IssuePair, Narrowed, ResolveRequestedScopes, GrantedOperations, GrantApproved, ResourceMatches, RequestedScopes;
    if step.ExchangeCode? || step.ExchangeRefresh? {
      ExchangeUses(s, step);
      ExchangeKeepsRequests(s, step);
    }
  }

  lemma ExchangeKeepsRequests(s: State, step: Step)
    requires step.ExchangeCode? || step.ExchangeRefresh?
    ensures Apply(s, step).0.requests == s.requests
  {
    hide Narrowed, RequestedScopes, GrantApproved, ResourceMatches, ResourceAllowed, RevokeClient, RevokeSource;
  }

  lemma {:induction false} ClosedForever(states: seq<State>, steps: seq<Step>, i: nat, j: nat, request: nat)
    requires Run(states, steps) && i <= j < |states| && Closed(states[i], request)
    ensures Closed(states[j], request)
    decreases j
  {
    hide Apply, Legal, Closed;
    if i < j {
      ClosedForever(states, steps, i, j - 1, request);
      StepKeepsClosed(states[j - 1], steps[j - 1], request);
    }
  }

  /** A decision is final: once a request is approved or denied, deciding it again changes nothing, at any later moment. */
  lemma DecidedOnce(states: seq<State>, steps: seq<Step>, i: nat, j: nat, request: nat)
    requires Run(states, steps) && i <= j < |states|
    requires request in states[i].requests && states[i].requests[request].decided
    ensures forall nonceMatches, client, code :: ApproveStep(states[j], request, nonceMatches, client, code) == states[j]
    ensures forall nonceMatches :: DenyStep(states[j], request, nonceMatches) == states[j]
  {
    hide Legal, Inv;
    Reachable(states, steps, i);
    RowsUsed(states[i]);
    ClosedForever(states, steps, i, j, request);
  }

  // ---------------------------------------------------------------- what a refusal and a success mean

  /** A code is exchanged exactly under its conditions, and then for the full grant. */
  lemma CodeExchangeIff(s: State, caller: nat, code: nat, redirectUri: Option<nat>, resource: Option<nat>, pair: Pair)
    requires FreshPair(s, pair)
    ensures var after := ExchangeCodeStep(s, caller, code, redirectUri, resource, pair);
            after.1.Issued? <==>
              && code in s.codes && s.codes[code].registration == caller
              && s.codes[code].consumedAt.None? && s.codes[code].expiresAt > s.now
              && (redirectUri.Some? ==> redirectUri.value == s.codes[code].redirectUri)
              && (resource.Some? ==> resource.value == s.served && (s.codes[code].resource.Some? ==> s.codes[code].resource == resource))
              && GrantApproved(s, s.codes[code].registration, s.codes[code].client)
    ensures var after := ExchangeCodeStep(s, caller, code, redirectUri, resource, pair);
            after.1.Issued? ==>
              after.0.codes[code].consumedAt.Some? && Unspent(after.0, pair.refresh, code) &&
              (Live(after.0, pair.access) <==> s.accessTtlMs > 0) && after.0.tokens[pair.access].scopes == s.codes[code].scopes
  {
  }

  /** A refresh token is exchanged exactly under its conditions; then it is spent and its successor carries what was asked for. */
  lemma RefreshExchangeIff(s: State, caller: nat, token: nat, scopes: Option<seq<string>>, resource: Option<nat>, pair: Pair)
    requires FreshPair(s, pair) && s.tokens.Keys <= s.usedIds
    ensures var after := ExchangeRefreshStep(s, caller, token, scopes, resource, pair);
            after.1.Issued? <==>
              && token in s.tokens && s.tokens[token].kind == Refresh && s.tokens[token].registration == caller
              && !s.tokens[token].revoked && s.tokens[token].expiresAt > s.now
              && GrantApproved(s, s.tokens[token].registration, s.tokens[token].client)
              && Within(RequestedScopes(s.tokens[token], scopes), s.tokens[token].scopes)
              && (resource.Some? ==> resource.value == s.served && (s.tokens[token].resource.Some? ==> s.tokens[token].resource == resource))
    ensures var after := ExchangeRefreshStep(s, caller, token, scopes, resource, pair);
            after.1.Issued? ==>
              after.0.tokens[token].revoked && after.0.tokens[pair.refresh].source == s.tokens[token].source &&
              after.0.tokens[pair.refresh].kind == Refresh && !after.0.tokens[pair.refresh].revoked &&
              after.0.tokens[pair.access].scopes == RequestedScopes(s.tokens[token], scopes)
  {
    hide GrantApproved;
    if token in s.tokens {
      NarrowedAll(s.tokens[token], scopes);
    }
  }

  /** Narrowing keeps every requested scope exactly when all of them were granted. */
  lemma NarrowedAll(t: Token, scopes: Option<seq<string>>)
    ensures |Narrowed(t, scopes)| == |RequestedScopes(t, scopes)| <==> Within(RequestedScopes(t, scopes), t.scopes)
    ensures Within(RequestedScopes(t, scopes), t.scopes) ==> Narrowed(t, scopes) == RequestedScopes(t, scopes)
  {
    var p := (scope: string) => scope in t.scopes;
    var requested := RequestedScopes(t, scopes);
    FilterAll(requested, p);
    FilterMembers(requested, p);
  }

  /** A code that was exchanged is never exchanged again. */
  lemma ConsumedIsRefused(states: seq<State>, steps: seq<Step>, i: nat, j: nat)
    requires Run(states, steps) && i < j < |steps|
    requires steps[i].ExchangeCode? && Apply(states[i], steps[i]).1.Issued?
    requires steps[j].ExchangeCode? && steps[j].code == steps[i].code
    ensures Apply(states[j], steps[j]).1 == Refused(InvalidGrant)
  {
    hide Inv, Legal, IssuePair, ResourceAllowed, ResourceMatches, GrantApproved;
    Reachable(states, steps, i);
    CodeUsed(states[i], steps[i].code);
    IssueKeepsCodes(states[i], steps[i]);
    ConsumedForever(states, steps, i + 1, j, steps[i].code);
  }

  lemma IssueKeepsCodes(s: State, step: Step)
    requires step.ExchangeCode? && Apply(s, step).1.Issued? && step.code in s.usedIds
    ensures Consumed(Apply(s, step).0, step.code)
  {
  }

  lemma {:induction false} ConsumedForever(states: seq<State>, steps: seq<Step>, i: nat, j: nat, code: nat)
    requires Run(states, steps) && i <= j < |states| && Consumed(states[i], code)
    ensures Consumed(states[j], code)
    decreases j
  {
    hide Apply, Legal, Consumed;
    if i < j {
      ConsumedForever(states, steps, i, j - 1, code);
      StepKeepsConsumed(states[j - 1], steps[j - 1], code);
    }
  }
}
