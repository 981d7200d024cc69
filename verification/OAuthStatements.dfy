/**
 * The token endpoints statement by statement (apps/api/src/oauth): `exchangeAuthorizationCode` reads the code,
 * consumes it by a conditional update and only then issues tokens; `exchangeRefreshToken` reads the token, spends it
 * and only then issues tokens; a revocation of a code's or a client's tokens finds them and then revokes
 * those it found. Other requests may run between any two statements.
 */
module OAuthStatements {
  datatype Code = Code(client: nat, consumed: bool)

  /** `issuer` is the request that minted the token, `direct` says that it did so for the code itself. */
  datatype Token = Token(code: nat, issuer: nat, direct: bool, refresh: bool, live: bool)

  /** The tokens a revocation is after: those of one code, or those of one client. */
  datatype Target = CodeTarget(code: nat) | ClientTarget(client: nat)

  /** Where a request is and what it has read; `found` are the positions of the tokens a revocation found. */
  datatype Phase =
    | Arrived(code: nat)
    | Checked(code: nat)
    | Won(code: nat)
    | Presented(token: nat)
    | Verified(code: nat, token: nat)
    | Spent(code: nat, token: nat)
    | Searching(target: Target)
    | Revoking(target: Target, found: set<nat>)
    | Finished

  /** A deleted client's codes and tokens are gone; they stay in the tables here, dead. */
  datatype State = State(codes: map<nat, Code>, blocked: set<nat>, deleted: set<nat>, requests: map<nat, Phase>, tokens: seq<Token>)

  datatype Step =
    | CreateCode(code: nat, client: nat)
    | Block(client: nat)
    | Unblock(client: nat)
    | DeleteClient(client: nat)
    | Arrive(request: nat, phase: Phase)
    | ReadCode(request: nat, owns: bool, checksPass: bool)
    | Consume(request: nat)
    | ReadToken(request: nat, checksPass: bool)
    | Spend(request: nat)
    | Mint(request: nat)
    | FindTokens(request: nat)
    | RevokeFound(request: nat)
    | RevokeOne(token: nat)
    | Crash(request: nat)

  /** An exchange, a refresh, or the revocation of a refresh token, which is after all tokens of its client. */
  predicate Arrival(phase: Phase) {
    phase.Arrived? || phase.Presented? || (phase.Searching? && phase.target.ClientTarget?)
  }

  /** Codes and requests are fresh when they appear, consent needs a client that is not blocked, statements belong to their phase. */
  predicate Legal(s: State, step: Step) {
    match step
    case CreateCode(code, client) => code !in s.codes && client !in s.blocked && client !in s.deleted
    case Block(_) => true
    case Unblock(_) => true
    case DeleteClient(_) => true
    case Arrive(request, phase) => request !in s.requests && Arrival(phase)
    case ReadCode(request, _, _) => request in s.requests && s.requests[request].Arrived?
    case Consume(request) => request in s.requests && s.requests[request].Checked?
    case ReadToken(request, _) => request in s.requests && s.requests[request].Presented?
    case Spend(request) => request in s.requests && s.requests[request].Verified?
    case Mint(request) => request in s.requests && (s.requests[request].Won? || s.requests[request].Spent?)
    case FindTokens(request) => request in s.requests && s.requests[request].Searching?
    case RevokeFound(request) => request in s.requests && s.requests[request].Revoking?
    case RevokeOne(token) => token < |s.tokens|
    case Crash(request) => request in s.requests
  }

  /** The code exists and its client was not deleted. */
  predicate Present(s: State, code: nat) {
    code in s.codes && s.codes[code].client !in s.deleted
  }

  predicate InTarget(s: State, code: nat, target: Target) {
    match target
    case CodeTarget(c) => code == c
    case ClientTarget(client) => code in s.codes && s.codes[code].client == client
  }

  predicate LiveIn(s: State, i: int, target: Target) {
    0 <= i < |s.tokens| && s.tokens[i].live && InTarget(s, s.tokens[i].code, target)
  }

  function LiveTokens(s: State, target: Target): (live: set<nat>)
    ensures forall i: nat :: i in live <==> LiveIn(s, i, target)
  {
    set i: nat | i < |s.tokens| && LiveIn(s, i, target)
  }

  function Revoked(tokens: seq<Token>, which: set<nat>): (after: seq<Token>)
    ensures |after| == |tokens|
    ensures forall i :: 0 <= i < |tokens| ==> after[i] == if i in which then tokens[i].(live := false) else tokens[i]
  {
    if tokens == [] then []
    else
      var n := |tokens| - 1;
      Revoked(tokens[..n], which) + [if n in which then tokens[n].(live := false) else tokens[n]]
  }

  function AfterReadCode(s: State, code: nat, owns: bool, checksPass: bool): Phase {
    if !Present(s, code) || !owns then Finished
    else if s.codes[code].consumed then Searching(CodeTarget(code))
    else if checksPass && s.codes[code].client !in s.blocked then Checked(code)
    else Finished
  }

  /** A revoked refresh token that is presented again sets off the revocation of its client's tokens. */
  function AfterReadToken(s: State, token: nat, checksPass: bool): Phase {
    if token >= |s.tokens| || !s.tokens[token].refresh || !Present(s, s.tokens[token].code) then Finished
    else
      var code := s.tokens[token].code;
      if !s.tokens[token].live then Searching(ClientTarget(s.codes[code].client))
      else if checksPass && s.codes[code].client !in s.blocked then Verified(code, token)
      else Finished
  }

  function Issue(s: State, request: nat, code: nat, direct: bool): seq<Token> {
    if Present(s, code) then s.tokens + [Token(code, request, direct, false, true), Token(code, request, direct, true, true)] else s.tokens
  }

  /** Blocking revokes in the same transaction, unless the client was blocked already; a deleted client's tokens are gone. */
  function Apply(s: State, step: Step): State
    requires Legal(s, step)
  {
    match step
    case CreateCode(code, client) => s.(codes := s.codes[code := Code(client, false)])
    case Block(client) =>
      s.(blocked := s.blocked + {client},
         tokens := if client in s.blocked then s.tokens else Revoked(s.tokens, LiveTokens(s, ClientTarget(client))))
    case Unblock(client) => s.(blocked := s.blocked - {client})
    case DeleteClient(client) =>
      s.(deleted := s.deleted + {client}, tokens := Revoked(s.tokens, LiveTokens(s, ClientTarget(client))))
    case Arrive(request, phase) => s.(requests := s.requests[request := phase])
    case ReadCode(request, owns, checksPass) =>
      s.(requests := s.requests[request := AfterReadCode(s, s.requests[request].code, owns, checksPass)])
    case Consume(request) =>
      var code := s.requests[request].code;
      if Present(s, code) && !s.codes[code].consumed then
        s.(codes := s.codes[code := s.codes[code].(consumed := true)], requests := s.requests[request := Won(code)])
      else s.(requests := s.requests[request := Finished])
    case ReadToken(request, checksPass) =>
      s.(requests := s.requests[request := AfterReadToken(s, s.requests[request].token, checksPass)])
    case Spend(request) =>
      var phase := s.requests[request];
      s.(tokens := Revoked(s.tokens, {phase.token}), requests := s.requests[request := Spent(phase.code, phase.token)])
    case Mint(request) =>
      var phase := s.requests[request];
      s.(tokens := Issue(s, request, phase.code, phase.Won?), requests := s.requests[request := Finished])
    case FindTokens(request) =>
      var target := s.requests[request].target;
      s.(requests := s.requests[request :=
        if LiveTokens(s, target) == {} then Finished else Revoking(target, LiveTokens(s, target))])
    case RevokeFound(request) =>
      s.(tokens := Revoked(s.tokens, s.requests[request].found), requests := s.requests[request := Finished])
    case RevokeOne(token) => s.(tokens := Revoked(s.tokens, {token}))
    case Crash(request) => s.(requests := s.requests[request := Finished])
  }

  const EMPTY := State(map[], {}, {}, map[], [])

  ghost predicate Run(states: seq<State>, steps: seq<Step>) {
    && |states| == |steps| + 1
    && states[0] == EMPTY
    && forall i :: 0 <= i < |steps| ==> Legal(states[i], steps[i]) && states[i + 1] == Apply(states[i], steps[i])
  }

  lemma StepIs(states: seq<State>, steps: seq<Step>, i: nat)
    requires Run(states, steps) && i < |steps|
    ensures |states| == |steps| + 1 && Legal(states[i], steps[i]) && states[i + 1] == Apply(states[i], steps[i])
  {
  }

  // ---------------------------------------------------------------- what every statement keeps

  predicate Consumed(s: State, code: nat) {
    code in s.codes && s.codes[code].consumed
  }

  /** Only consumed codes have tokens, deleted clients have no live ones, and whoever minted is finished. */
  predicate TokenOk(s: State, t: Token) {
    && Consumed(s, t.code)
    && (t.live ==> Present(s, t.code))
    && t.issuer in s.requests && s.requests[t.issuer].Finished?
  }

  predicate PhaseOk(s: State, phase: Phase) {
    match phase
    case Checked(code) => code in s.codes
    case Won(code) => Consumed(s, code)
    case Verified(code, token) => token < |s.tokens| && s.tokens[token].code == code && s.tokens[token].refresh
    case Spent(code, token) => token < |s.tokens| && s.tokens[token].code == code && !s.tokens[token].live
    case Searching(CodeTarget(code)) => Consumed(s, code)
    case Revoking(target, found) =>
      (target.CodeTarget? ==> Consumed(s, target.code)) && forall i :: i in found ==> i < |s.tokens|
    case _ => true
  }

  predicate WellFormed(s: State) {
    && (forall i :: 0 <= i < |s.tokens| ==> TokenOk(s, s.tokens[i]))
    && (forall r :: r in s.requests ==> PhaseOk(s, s.requests[r]))
  }

  /** Rows keep what they are, nothing revives, and requests that are over stay over. */
  predicate Follows(s: State, t: State) {
    && (forall code :: code in s.codes ==>
          code in t.codes && t.codes[code].client == s.codes[code].client && (s.codes[code].consumed ==> t.codes[code].consumed))
    && s.deleted <= t.deleted
    && |s.tokens| <= |t.tokens|
    && (forall i :: 0 <= i < |s.tokens| ==> t.tokens[i].(live := s.tokens[i].live) == s.tokens[i] && (t.tokens[i].live ==> s.tokens[i].live))
    && (forall r :: r in s.requests ==> r in t.requests && (s.requests[r].Finished? ==> t.requests[r].Finished?))
  }

  lemma StepFollows(s: State, step: Step)
    requires Legal(s, step)
    ensures Follows(s, Apply(s, step))
  {
    hide LiveTokens, AfterReadCode, AfterReadToken;
  }

  lemma StepKeepsTokens(s: State, step: Step)
    requires WellFormed(s) && Legal(s, step)
    ensures forall i :: 0 <= i < |Apply(s, step).tokens| ==> TokenOk(Apply(s, step), Apply(s, step).tokens[i])
  {
    hide AfterReadCode, AfterReadToken, Revoked;
    var t := Apply(s, step);
    StepFollows(s, step);
    forall i | 0 <= i < |t.tokens|
      ensures TokenOk(t, t.tokens[i])
    {
      if i < |s.tokens| {
        assert TokenOk(s, s.tokens[i]);
      } else {
        assert PhaseOk(s, s.requests[step.request]);
        if s.requests[step.request].Spent? {
          assert TokenOk(s, s.tokens[s.requests[step.request].token]);
        }
      }
    }
  }

  lemma PhaseStaysOk(s: State, t: State, phase: Phase)
    requires PhaseOk(s, phase) && Follows(s, t)
    ensures PhaseOk(t, phase)
  {
  }

  /** What the statement leaves its own request in. */
  lemma NextPhaseOk(s: State, step: Step, r: nat)
    requires WellFormed(s) && Legal(s, step) && r in Apply(s, step).requests
    requires r in s.requests ==> Apply(s, step).requests[r] != s.requests[r]
    ensures PhaseOk(Apply(s, step), Apply(s, step).requests[r])
  {
    if r in s.requests {
      assert PhaseOk(s, s.requests[r]);
    }
  }

  lemma StepKeepsPhases(s: State, step: Step)
    requires WellFormed(s) && Legal(s, step)
    ensures forall r :: r in Apply(s, step).requests ==> PhaseOk(Apply(s, step), Apply(s, step).requests[r])
  {
    hide Apply, Legal, Follows, PhaseOk;
    var t := Apply(s, step);
    StepFollows(s, step);
    forall r | r in t.requests
      ensures PhaseOk(t, t.requests[r])
    {
      if r in s.requests && t.requests[r] == s.requests[r] {
        PhaseStaysOk(s, t, s.requests[r]);
      } else {
        NextPhaseOk(s, step, r);
      }
    }
  }

  lemma {:induction false} Reachable(states: seq<State>, steps: seq<Step>, k: nat)
    requires Run(states, steps) && k < |states|
    ensures WellFormed(states[k])
  {
    hide Apply, Legal, TokenOk, PhaseOk;
    if k > 0 {
      Reachable(states, steps, k - 1);
      StepKeepsTokens(states[k - 1], steps[k - 1]);
      StepKeepsPhases(states[k - 1], steps[k - 1]);
    }
  }

  lemma {:induction false} FollowsLater(states: seq<State>, steps: seq<Step>, i: nat, j: nat)
    requires Run(states, steps) && i <= j < |states|
    ensures Follows(states[i], states[j])
    decreases j
  {
    hide Apply, Legal;
    if i < j {
      FollowsLater(states, steps, i, j - 1);
      StepFollows(states[j - 1], steps[j - 1]);
    }
  }

  // ---------------------------------------------------------------- single use

  /** A refresh token that stands for a grant, or a request that will mint one. */
  datatype Claim = OfToken(token: nat) | OfRequest(request: nat)

  /** What the code itself was exchanged for: the refresh token of a directly minted pair, or the winner about to mint it. */
  predicate DirectClaim(s: State, code: nat, claim: Claim) {
    match claim
    case OfToken(i) => i < |s.tokens| && s.tokens[i].code == code && s.tokens[i].direct && s.tokens[i].refresh
    case OfRequest(r) => r in s.requests && s.requests[r] == Won(code)
  }

  ghost predicate SingleUse(s: State, code: nat) {
    forall a, b :: DirectClaim(s, code, a) && DirectClaim(s, code, b) ==> a == b
  }

  /** The claim a claim comes from: a minted token from the request that minted it. */
  function Before(s: State, step: Step, claim: Claim): Claim {
    if step.Mint? && claim.OfToken? && claim.token >= |s.tokens| then OfRequest(step.request) else claim
  }

  lemma DirectClaimBefore(s: State, step: Step, code: nat, claim: Claim)
    requires WellFormed(s) && Legal(s, step) && DirectClaim(Apply(s, step), code, claim)
    ensures DirectClaim(s, code, Before(s, step, claim)) ||
            (step.Consume? && claim == OfRequest(step.request) && code in s.codes && !s.codes[code].consumed)
  {
    hide LiveTokens, Revoked;
    StepFollows(s, step);
  }

  lemma UnconsumedUnclaimed(s: State, code: nat, claim: Claim)
    requires WellFormed(s) && code in s.codes && !s.codes[code].consumed
    ensures !DirectClaim(s, code, claim)
  {
    if claim.OfToken? && claim.token < |s.tokens| {
      assert TokenOk(s, s.tokens[claim.token]);
    } else if claim.OfRequest? && claim.request in s.requests {
      assert PhaseOk(s, s.requests[claim.request]);
    }
  }

  lemma StepKeepsSingleUse(s: State, step: Step, code: nat)
    requires WellFormed(s) && SingleUse(s, code) && Legal(s, step)
    ensures SingleUse(Apply(s, step), code)
  {
    hide Apply, Legal, DirectClaim;
    var t := Apply(s, step);
    forall a, b | DirectClaim(t, code, a) && DirectClaim(t, code, b)
      ensures a == b
    {
      DirectClaimBefore(s, step, code, a);
      DirectClaimBefore(s, step, code, b);
      if code in s.codes && !s.codes[code].consumed {
        UnconsumedUnclaimed(s, code, Before(s, step, a));
        UnconsumedUnclaimed(s, code, Before(s, step, b));
      } else {
        assert Before(s, step, a) == Before(s, step, b);
        MintedRefresh(s, step, code, a);
        MintedRefresh(s, step, code, b);
      }
    }
  }

  /** Of a minted pair only the second token is a refresh token, and its request claims nothing any more. */
  lemma MintedRefresh(s: State, step: Step, code: nat, claim: Claim)
    requires Legal(s, step) && DirectClaim(Apply(s, step), code, claim)
    ensures step.Mint? && claim.OfToken? && claim.token >= |s.tokens| ==> claim.token == |s.tokens| + 1
    ensures step.Mint? ==> claim != OfRequest(step.request)
  {
  }

  /** However requests interleave, at most one pair is ever minted directly from a code. */
  lemma {:induction false} AtMostOneMint(states: seq<State>, steps: seq<Step>, k: nat, code: nat)
    requires Run(states, steps) && k < |states|
    ensures SingleUse(states[k], code)
  {
    hide Apply, Legal, WellFormed;
    if k > 0 {
      AtMostOneMint(states, steps, k - 1, code);
      Reachable(states, steps, k - 1);
      StepKeepsSingleUse(states[k - 1], steps[k - 1], code);
    }
  }
}
