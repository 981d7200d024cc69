/** What the interleaved statements of `OAuthStatements` guarantee, and exactly when. */
module OAuthRaces {
  import opened OAuthStatements

  // ---------------------------------------------------------------- dead for good

  /** The request has passed its check and can still bring about a live token of the target. */
  predicate CouldMint(s: State, r: nat, target: Target) {
    && r in s.requests
    && var phase := s.requests[r];
       && (phase.Checked? || phase.Won? || phase.Verified? || phase.Spent?)
       && InTarget(s, phase.code, target) && Present(s, phase.code)
       && (phase.Checked? ==> !s.codes[phase.code].consumed)
  }

  /** No token of the target is live and no request under way can mint one. */
  predicate Dead(s: State, target: Target) {
    LiveTokens(s, target) == {} && forall r :: r in s.requests ==> !CouldMint(s, r, target)
  }

  /** No request can pass its check for the target any more: the code is consumed, or its client blocked or gone. */
  predicate Shut(s: State, target: Target) {
    match target
    case CodeTarget(code) => Consumed(s, code)
    case ClientTarget(client) => client in s.blocked || client in s.deleted
  }

  lemma StepKeepsDead(s: State, step: Step, target: Target)
    requires WellFormed(s) && Legal(s, step) && Dead(s, target) && Shut(s, target)
    ensures Dead(Apply(s, step), target)
  {
    hide Revoked;
    var t := Apply(s, step);
    StepFollows(s, step);
    forall r | r in t.requests
      ensures !CouldMint(t, r, target)
    {
      NoNewMinter(s, step, target, r);
    }
    forall i: nat | i < |t.tokens|
      ensures !LiveIn(t, i, target)
    {
      NoNewToken(s, step, target, i);
    }
  }

  lemma NoNewMinter(s: State, step: Step, target: Target, r: nat)
    requires WellFormed(s) && Legal(s, step) && Dead(s, target) && Shut(s, target)
    ensures !CouldMint(Apply(s, step), r, target)
  {
    hide Revoked;
    if r in s.requests {
      assert !CouldMint(s, r, target) && PhaseOk(s, s.requests[r]);
      if step.ReadToken? && step.request == r && s.requests[r].token < |s.tokens| {
        assert !LiveIn(s, s.requests[r].token, target);
      }
    }
  }

  lemma NoNewToken(s: State, step: Step, target: Target, i: nat)
    requires WellFormed(s) && Legal(s, step) && Dead(s, target)
    ensures !LiveIn(Apply(s, step), i, target)
  {
    StepFollows(s, step);
    if i < |s.tokens| {
      assert !LiveIn(s, i, target) && TokenOk(s, s.tokens[i]);
    } else if step.Mint? {
      assert !CouldMint(s, step.request, target);
    }
  }

  /** The target stays shut from state i to state j. */
  ghost predicate ShutThroughout(states: seq<State>, i: nat, j: nat, target: Target) {
    forall k :: i <= k < j && k < |states| ==> Shut(states[k], target)
  }

  lemma {:induction false} DeadWhileShut(states: seq<State>, steps: seq<Step>, i: nat, j: nat, target: Target)
    requires Run(states, steps) && i <= j < |states| && Dead(states[i], target) && ShutThroughout(states, i, j, target)
    ensures Dead(states[j], target)
    decreases j
  {
    hide Apply, Legal, Dead, Shut;
    if i < j {
      DeadWhileShut(states, steps, i, j - 1, target);
      Reachable(states, steps, j - 1);
      StepKeepsDead(states[j - 1], steps[j - 1], target);
    }
  }

  /** The statements a request under way still has to run until it has minted. */
  function Rest(s: State, r: nat): seq<Step> {
    if r !in s.requests then []
    else match s.requests[r]
      case Checked(_) => [Consume(r), Mint(r)]
      case Verified(_, _) => [Spend(r), Mint(r)]
      case _ => [Mint(r)]
  }

  /** The statements run one after the other from s to t. */
  ghost predicate RunsTo(s: State, steps: seq<Step>, t: State)
    decreases |steps|
  {
    if steps == [] then s == t else Legal(s, steps[0]) && RunsTo(Apply(s, steps[0]), steps[1..], t)
  }

  /** Whoever can mint does so by its own remaining statements, whatever was revoked before: the new token is live. */
  lemma MintsInTheEnd(s: State, r: nat, target: Target) returns (t: State)
    requires CouldMint(s, r, target)
    ensures RunsTo(s, Rest(s, r), t) && t.blocked == s.blocked && t.deleted == s.deleted
    ensures LiveIn(t, |s.tokens|, target) && LiveIn(t, |s.tokens| + 1, target)
    ensures t.tokens[|s.tokens| + 1].refresh && t.tokens[|s.tokens| + 1].issuer == r
    ensures forall x :: x in s.requests && x != r ==> x in t.requests && t.requests[x] == s.requests[x]
  {
    hide Revoked;
    var rest := Rest(s, r);
    var mid := if |rest| == 1 then s else Apply(s, rest[0]);
    t := Apply(mid, Mint(r));
    assert RunsTo(mid, [Mint(r)], t);
    assert |rest| == 2 ==> rest[1..] == [Mint(r)];
  }

  // ---------------------------------------------------------------- a revocation that runs to its end

  /** The revocation that searches in step i ends with step m: it found nothing, or it revokes what it found. */
  predicate EndsWith(states: seq<State>, steps: seq<Step>, i: nat, m: nat, request: nat)
    requires i <= m < |steps| < |states| && Legal(states[i], FindTokens(request))
  {
    if i == m then LiveTokens(states[i], states[i].requests[request].target) == {}
    else steps[m] == RevokeFound(request)
  }

  /** A request that could have minted at some moment of the revocation. */
  ghost predicate Racer(states: seq<State>, i: nat, m: nat, r: nat, target: Target) {
    exists k :: i <= k <= m && k < |states| && CouldMint(states[k], r, target)
  }

  /** Nothing came of the request: it can mint no more and none of its tokens is live. */
  predicate Idle(s: State, r: nat, target: Target) {
    !CouldMint(s, r, target) && forall i :: i in LiveTokens(s, target) ==> s.tokens[i].issuer != r
  }

  /** A revocation keeps its target and what it found until it is finished. */
  lemma {:induction false} KeepsFound(states: seq<State>, steps: seq<Step>, i: nat, m: nat, request: nat)
    requires Run(states, steps) && i <= m < |states| && request in states[i].requests
    requires states[i].requests[request].Revoking? || states[i].requests[request].Finished?
    ensures request in states[m].requests
    ensures states[m].requests[request].Finished? || states[m].requests[request] == states[i].requests[request]
    decreases m
  {
    hide LiveTokens, Revoked, AfterReadCode, AfterReadToken;
    if i < m {
      KeepsFound(states, steps, i, m - 1, request);
    }
  }

  lemma InTargetLater(s: State, t: State, code: nat, target: Target)
    requires Follows(s, t) && code in s.codes
    ensures InTarget(s, code, target) <==> InTarget(t, code, target)
  {
  }

  /** A token that is there at m but not at i was minted in between, by a request that could. */
  lemma {:induction false} MintedBetween(states: seq<State>, steps: seq<Step>, i: nat, m: nat, x: nat, target: Target)
    requires Run(states, steps) && i <= m < |states| && |states[i].tokens| <= x && LiveIn(states[m], x, target)
    ensures Racer(states, i, m, states[m].tokens[x].issuer, target)
    decreases m
  {
    hide Legal, Revoked, LiveTokens, CouldMint, WellFormed;
    if i < m {
      var s, step := states[m - 1], steps[m - 1];
      Reachable(states, steps, m - 1);
      StepFollows(s, step);
      if x < |s.tokens| {
        StillIn(s, states[m], x, target);
        MintedBetween(states, steps, i, m - 1, x, target);
        var k :| i <= k <= m - 1 && CouldMint(states[k], states[m].tokens[x].issuer, target);
        assert i <= k <= m && k < |states|;
      } else {
        MintedNow(s, step, x, target);
      }
    }
  }

  lemma StillIn(s: State, t: State, x: nat, target: Target)
    requires WellFormed(s) && Follows(s, t) && x < |s.tokens| && LiveIn(t, x, target)
    ensures LiveIn(s, x, target) && s.tokens[x].issuer == t.tokens[x].issuer
  {
    assert TokenOk(s, s.tokens[x]);
    InTargetLater(s, t, s.tokens[x].code, target);
  }

  lemma MintedNow(s: State, step: Step, x: nat, target: Target)
    requires WellFormed(s) && Legal(s, step) && |s.tokens| <= x && LiveIn(Apply(s, step), x, target)
    ensures CouldMint(s, Apply(s, step).tokens[x].issuer, target)
  {
    hide Revoked, LiveTokens;
    assert PhaseOk(s, s.requests[step.request]);
  }

  lemma IssuerIsDone(s: State, x: nat, target: Target)
    requires WellFormed(s) && x < |s.tokens|
    ensures !CouldMint(s, s.tokens[x].issuer, target)
  {
    assert TokenOk(s, s.tokens[x]);
  }

  /** What a racer minted is newer than anything the revocation found. */
  lemma RacersMintLater(states: seq<State>, steps: seq<Step>, i: nat, m: nat, x: nat, target: Target)
    requires Run(states, steps) && i <= m < |states| && x < |states[m].tokens|
    requires Racer(states, i, m, states[m].tokens[x].issuer, target)
    ensures |states[i].tokens| <= x
  {
    hide Apply, Legal, LiveTokens, InTarget;
    var r := states[m].tokens[x].issuer;
    var k :| i <= k <= m && CouldMint(states[k], r, target);
    FollowsLater(states, steps, i, k);
    FollowsLater(states, steps, k, m);
    Reachable(states, steps, k);
    if x < |states[k].tokens| {
      IssuerIsDone(states[k], x, target);
    }
  }

  /** Exactly the tokens that a finished revocation did not find survive it, and it lets every other request go on. */
  lemma EndState(states: seq<State>, steps: seq<Step>, i: nat, m: nat, request: nat)
    requires Run(states, steps) && i <= m < |steps| && steps[i] == FindTokens(request)
    requires Legal(states[i], steps[i]) && EndsWith(states, steps, i, m, request)
    ensures var target := states[i].requests[request].target;
            forall x: nat :: LiveIn(states[m + 1], x, target) <==> LiveIn(states[m], x, target) && x !in LiveTokens(states[i], target)
    ensures var target := states[i].requests[request].target;
            forall r :: r in states[m].requests ==> (CouldMint(states[m + 1], r, target) <==> CouldMint(states[m], r, target))
    ensures states[m + 1].requests.Keys == states[m].requests.Keys
  {
    hide CouldMint, InTarget, Revoked;
    StepIs(states, steps, i);
    StepIs(states, steps, m);
    if i < m {
      KeepsFound(states, steps, i + 1, m, request);
    }
    var target := states[i].requests[request].target;
    EndsRevoking(states[m], steps[m], target);
  }

  lemma EndsRevoking(s: State, step: Step, target: Target)
    requires Legal(s, step) && (step.FindTokens? || step.RevokeFound?)
    ensures forall code :: InTarget(Apply(s, step), code, target) <==> InTarget(s, code, target)
    ensures forall r :: r in s.requests ==> (CouldMint(Apply(s, step), r, target) <==> CouldMint(s, r, target))
  {
    hide Revoked, LiveTokens;
  }

  /**
   * A revocation that runs to its end leaves no token of its target live, and none to come, exactly when nothing
   * came of any request that could mint while it ran; for the replay of a code that is for good.
   */
  lemma RevocationKillsIff(states: seq<State>, steps: seq<Step>, i: nat, m: nat, request: nat)
    requires Run(states, steps) && i <= m < |steps| && steps[i] == FindTokens(request)
    requires Legal(states[i], steps[i]) && EndsWith(states, steps, i, m, request)
    ensures var target := states[i].requests[request].target;
            Dead(states[m + 1], target) <==> forall r :: Racer(states, i, m, r, target) ==> Idle(states[m], r, target)
    ensures var target := states[i].requests[request].target;
            target.CodeTarget? ==>
              ((forall j :: m < j < |states| ==> Dead(states[j], target)) <==>
               forall r :: Racer(states, i, m, r, target) ==> Idle(states[m], r, target))
  {
    hide Apply, EndsWith, WellFormed, LiveTokens, CouldMint, Racer, InTarget;
    var s, t, target := states[m], states[m + 1], states[i].requests[request].target;
    EndState(states, steps, i, m, request);
    FollowsLater(states, steps, i, m);
    if Dead(t, target) {
      forall r | Racer(states, i, m, r, target)
        ensures Idle(s, r, target)
      {
        IdleRacer(states, steps, i, m, r, target);
      }
    }
    if forall r :: Racer(states, i, m, r, target) ==> Idle(s, r, target) {
      forall r | r in t.requests
        ensures !CouldMint(t, r, target)
      {
        NowRacer(states, i, m, r, target);
      }
      forall x: nat | LiveIn(t, x, target)
        ensures false
      {
        if x < |states[i].tokens| {
          Reachable(states, steps, i);
          StillIn(states[i], s, x, target);
        } else {
          MintedBetween(states, steps, i, m, x, target);
        }
      }
      assert LiveTokens(t, target) == {};
    }
    if target.CodeTarget? && Dead(t, target) {
      DeadForGood(states, steps, i, m + 1, request);
    }
  }

  lemma NowRacer(states: seq<State>, i: nat, m: nat, r: nat, target: Target)
    requires i <= m < |states|
    ensures CouldMint(states[m], r, target) ==> Racer(states, i, m, r, target)
  {
  }

  lemma IdleRacer(states: seq<State>, steps: seq<Step>, i: nat, m: nat, r: nat, target: Target)
    requires Run(states, steps) && i <= m < |steps| && Racer(states, i, m, r, target)
    requires Dead(states[m + 1], target)
    requires forall x: nat :: LiveIn(states[m + 1], x, target) <==> LiveIn(states[m], x, target) && x !in LiveTokens(states[i], target)
    requires forall x :: x in states[m].requests ==> (CouldMint(states[m + 1], x, target) <==> CouldMint(states[m], x, target))
    requires states[m + 1].requests.Keys == states[m].requests.Keys
    ensures Idle(states[m], r, target)
  {
    hide Racer, InTarget;
    if r in states[m].requests {
      assert !CouldMint(states[m + 1], r, target);
    }
    forall x | x in LiveTokens(states[m], target)
      ensures states[m].tokens[x].issuer != r
    {
      assert x !in LiveTokens(states[m + 1], target);
      assert x in LiveTokens(states[i], target);
      if states[m].tokens[x].issuer == r {
        RacersMintLater(states, steps, i, m, x, target);
      }
    }
  }

  /** A replayed code is consumed, so its target stays shut. */
  lemma DeadForGood(states: seq<State>, steps: seq<Step>, i: nat, j: nat, request: nat)
    requires Run(states, steps) && i <= j < |states| && Legal(states[i], FindTokens(request))
    requires states[i].requests[request].target.CodeTarget?
    requires Dead(states[j], states[i].requests[request].target)
    ensures forall k :: j <= k < |states| ==> Dead(states[k], states[i].requests[request].target)
  {
    hide Apply, Dead, LiveTokens;
    var target := states[i].requests[request].target;
    Reachable(states, steps, i);
    assert PhaseOk(states[i], states[i].requests[request]);
    forall k | j <= k < |states|
      ensures Dead(states[k], target)
    {
      forall n | j <= n < k
        ensures Shut(states[n], target)
      {
        FollowsLater(states, steps, i, n);
      }
      DeadWhileShut(states, steps, j, k, target);
    }
  }

  // ---------------------------------------------------------------- blocking

  /**
   * Blocking a client cuts it off as long as it stays blocked, whatever runs meanwhile, exactly when no exchange or
   * refresh of it has passed its check without having minted; the tokens from before are dead for ever.
   */
  lemma BlockingKillsIff(states: seq<State>, steps: seq<Step>, i: nat, client: nat)
    requires Run(states, steps) && i < |steps| && steps[i] == Block(client) && client !in states[i].blocked
    ensures Dead(states[i + 1], ClientTarget(client)) <==> forall r :: r in states[i].requests ==> !CouldMint(states[i], r, ClientTarget(client))
    ensures Dead(states[i + 1], ClientTarget(client)) ==>
              forall j :: i < j < |states| && ShutThroughout(states, i + 1, j, ClientTarget(client)) ==> Dead(states[j], ClientTarget(client))
    ensures forall j, x: nat :: i < j < |states| && x < |states[i].tokens| && LiveIn(states[i], x, ClientTarget(client)) ==>
              x < |states[j].tokens| && !states[j].tokens[x].live
  {
    hide Apply, Legal, Dead, CouldMint, LiveTokens, InTarget;
    var target := ClientTarget(client);
    BlockedNow(states[i], client);
    StepIs(states, steps, i);
    if Dead(states[i + 1], target) {
      forall j | i < j < |states| && ShutThroughout(states, i + 1, j, target)
        ensures Dead(states[j], target)
      {
        DeadWhileShut(states, steps, i + 1, j, target);
      }
    }
    forall j, x: nat | i < j < |states| && x < |states[i].tokens| && LiveIn(states[i], x, target)
      ensures x < |states[j].tokens| && !states[j].tokens[x].live
    {
      FollowsLater(states, steps, i + 1, j);
    }
  }

  lemma BlockedNow(s: State, client: nat)
    requires client !in s.blocked
    ensures var t, target := Apply(s, Block(client)), ClientTarget(client);
            && (Dead(t, target) <==> forall r :: r in s.requests ==> !CouldMint(s, r, target))
            && |t.tokens| == |s.tokens|
            && forall x: nat :: LiveIn(s, x, target) ==> !t.tokens[x].live
  {
    hide Revoked;
    var t, target := Apply(s, Block(client)), ClientTarget(client);
    assert forall r :: CouldMint(t, r, target) <==> CouldMint(s, r, target);
    assert LiveTokens(t, target) == {};
  }

  // ---------------------------------------------------------------- rotation

  /** Two requests hold the same refresh token of the code as verified and have not spent it. */
  predicate Overlap(s: State, r: nat, x: nat, code: nat) {
    && r != x && r in s.requests && x in s.requests
    && s.requests[r].Verified? && s.requests[r].code == code && s.requests[x] == s.requests[r]
  }

  /**
   * What stands for the grant of a code: an unspent refresh token, or a request that will mint one although no
   * unspent token stands for it any more.
   */
  predicate LineClaim(s: State, code: nat, claim: Claim) {
    match claim
    case OfToken(i) => i < |s.tokens| && s.tokens[i].code == code && s.tokens[i].refresh && s.tokens[i].live
    case OfRequest(r) =>
      && r in s.requests
      && (s.requests[r] == Won(code)
          || (s.requests[r].Spent? && s.requests[r].code == code)
          || (s.requests[r].Verified? && s.requests[r].code == code && s.requests[r].token < |s.tokens| && !s.tokens[s.requests[r].token].live))
  }

  ghost predicate OneLine(s: State, code: nat) {
    forall a, b :: LineClaim(s, code, a) && LineClaim(s, code, b) ==> a == b
  }

  /** The claim a claim comes from: besides minting, a verified token that dies passes its claim to the request that holds it. */
  function LineBefore(s: State, step: Step, claim: Claim): Claim {
    if claim.OfRequest? && claim.request in s.requests && s.requests[claim.request].Verified? &&
       s.requests[claim.request].token < |s.tokens| && s.tokens[s.requests[claim.request].token].live
    then OfToken(s.requests[claim.request].token)
    else Before(s, step, claim)
  }

  lemma LineClaimBefore(s: State, step: Step, code: nat, claim: Claim)
    requires WellFormed(s) && Legal(s, step) && LineClaim(Apply(s, step), code, claim)
    ensures LineClaim(s, code, LineBefore(s, step, claim)) ||
            (step.Consume? && claim == OfRequest(step.request) && code in s.codes && !s.codes[code].consumed)
  {
    hide Revoked, LiveTokens;
    match claim
    case OfRequest(r) =>
      if r in s.requests {
        assert PhaseOk(s, s.requests[r]);
      }
    case OfToken(i) =>
      StepFollows(s, step);
  }

  lemma UnconsumedLine(s: State, code: nat, claim: Claim)
    requires WellFormed(s) && code in s.codes && !s.codes[code].consumed
    ensures !LineClaim(s, code, claim)
  {
    if claim.OfToken? && claim.token < |s.tokens| {
      assert TokenOk(s, s.tokens[claim.token]);
    } else if claim.OfRequest? && claim.request in s.requests {
      var phase := s.requests[claim.request];
      assert PhaseOk(s, phase);
      if phase.Verified? || phase.Spent? {
        assert TokenOk(s, s.tokens[phase.token]);
      }
    }
  }

  /** The request of a claim did not just mint, and a token whose claim it took over is spent. */
  lemma RequestClaim(s: State, step: Step, code: nat, r: nat)
    requires WellFormed(s) && Legal(s, step) && LineClaim(Apply(s, step), code, OfRequest(r))
    ensures step.Mint? ==> r != step.request
    ensures LineBefore(s, step, OfRequest(r)) == OfRequest(r) ||
            (r in s.requests && s.requests[r].Verified? && s.requests[r].code == code &&
             LineBefore(s, step, OfRequest(r)) == OfToken(s.requests[r].token) &&
             !LineClaim(Apply(s, step), code, OfToken(s.requests[r].token)))
  {
    hide LiveTokens;
    if r in s.requests {
      assert PhaseOk(s, s.requests[r]);
    }
  }

  lemma TokenClaim(s: State, step: Step, code: nat, i: nat)
    requires Legal(s, step) && LineClaim(Apply(s, step), code, OfToken(i))
    ensures LineBefore(s, step, OfToken(i)) == if step.Mint? && i == |s.tokens| + 1 then OfRequest(step.request) else OfToken(i)
  {
    hide LiveTokens, Revoked;
  }

  /** Different claims come from different ones, unless two requests hold the same token. */
  lemma LineBeforeInjective(s: State, step: Step, code: nat, a: Claim, b: Claim)
    requires WellFormed(s) && Legal(s, step) && LineClaim(Apply(s, step), code, a) && LineClaim(Apply(s, step), code, b)
    requires forall r, x :: !Overlap(s, r, x, code)
    requires LineBefore(s, step, a) == LineBefore(s, step, b)
    ensures a == b
  {
    hide Apply, Legal, WellFormed, LineClaim, LineBefore;
    match (a, b)
    case (OfRequest(r), OfRequest(x)) =>
      RequestClaim(s, step, code, r);
      RequestClaim(s, step, code, x);
      assert !Overlap(s, r, x, code);
    case (OfRequest(r), OfToken(i)) =>
      RequestClaim(s, step, code, r);
      TokenClaim(s, step, code, i);
    case (OfToken(i), OfRequest(x)) =>
      RequestClaim(s, step, code, x);
      TokenClaim(s, step, code, i);
    case (OfToken(i), OfToken(j)) =>
      TokenClaim(s, step, code, i);
      TokenClaim(s, step, code, j);
  }

  lemma StepKeepsOneLine(s: State, step: Step, code: nat)
    requires WellFormed(s) && OneLine(s, code) && Legal(s, step)
    requires forall r, x :: !Overlap(s, r, x, code)
    ensures OneLine(Apply(s, step), code)
  {
    hide Apply, Legal, LineClaim, LineBefore, WellFormed;
    var t := Apply(s, step);
    forall a, b | LineClaim(t, code, a) && LineClaim(t, code, b)
      ensures a == b
    {
      LineClaimBefore(s, step, code, a);
      LineClaimBefore(s, step, code, b);
      if code in s.codes && !s.codes[code].consumed {
        UnconsumedLine(s, code, LineBefore(s, step, a));
        UnconsumedLine(s, code, LineBefore(s, step, b));
      } else {
        LineBeforeInjective(s, step, code, a, b);
      }
    }
  }

  lemma {:induction false} OneLineAlways(states: seq<State>, steps: seq<Step>, k: nat, code: nat)
    requires Run(states, steps) && k < |states|
    requires forall j, r, x :: 0 <= j < k ==> !Overlap(states[j], r, x, code)
    ensures OneLine(states[k], code)
  {
    hide Apply, Legal, WellFormed, Overlap;
    if k > 0 {
      OneLineAlways(states, steps, k - 1, code);
      Reachable(states, steps, k - 1);
      StepKeepsOneLine(states[k - 1], steps[k - 1], code);
    }
  }

  /** As long as no two refreshes held the same token of the code at once, the code has at most one unspent refresh token. */
  lemma OneUnspentToken(states: seq<State>, steps: seq<Step>, k: nat, code: nat, x: nat, y: nat)
    requires Run(states, steps) && k < |states|
    requires forall j, r, x :: 0 <= j < k ==> !Overlap(states[j], r, x, code)
    requires LiveIn(states[k], x, CodeTarget(code)) && states[k].tokens[x].refresh
    requires LiveIn(states[k], y, CodeTarget(code)) && states[k].tokens[y].refresh
    ensures x == y
  {
    hide Overlap;
    OneLineAlways(states, steps, k, code);
    assert LineClaim(states[k], code, OfToken(x)) && LineClaim(states[k], code, OfToken(y));
  }

  /** Two refreshes that hold the same token of a client that exists can both run on, and then the code has two. */
  lemma OverlapSplits(s: State, r: nat, x: nat, code: nat) returns (mid: State, t: State, i: nat, j: nat)
    requires WellFormed(s) && Overlap(s, r, x, code) && Present(s, code)
    ensures RunsTo(s, [Spend(r), Mint(r)], mid) && RunsTo(mid, [Spend(x), Mint(x)], t)
    ensures i != j && LiveIn(t, i, CodeTarget(code)) && LiveIn(t, j, CodeTarget(code)) && t.tokens[i].refresh && t.tokens[j].refresh
  {
    hide Revoked;
    assert PhaseOk(s, s.requests[r]);
    var spent := Apply(s, Spend(r));
    mid := Apply(spent, Mint(r));
    assert RunsTo(spent, [Mint(r)], mid);
    var again := Apply(mid, Spend(x));
    t := Apply(again, Mint(x));
    assert RunsTo(again, [Mint(x)], t);
    assert [Spend(r), Mint(r)][1..] == [Mint(r)] && [Spend(x), Mint(x)][1..] == [Mint(x)];
    i, j := |s.tokens| + 1, |mid.tokens| + 1;
  }

  // ---------------------------------------------------------------- the run in which a replay misses a refresh

  const ESCAPE: seq<Step> := [
    CreateCode(7, 1),
    Arrive(0, Arrived(7)), ReadCode(0, true, true), Consume(0), Mint(0),
    Arrive(1, Arrived(7)), ReadCode(1, true, true), FindTokens(1),
    Arrive(2, Presented(1)), ReadToken(2, true), Spend(2), Mint(2),
    RevokeFound(1)
  ]

  /** One code, of one client. */
  function Vault(consumed: bool, requests: map<nat, Phase>, tokens: seq<Token>): State {
    State(map[7 := Code(1, consumed)], {}, {}, requests, tokens)
  }

  /** An access and a refresh token, and whether they are live. */
  function Pair(issuer: nat, direct: bool, access: bool, refresh: bool): seq<Token> {
    [Token(7, issuer, direct, false, access), Token(7, issuer, direct, true, refresh)]
  }

  const REPLAY := Revoking(CodeTarget(7), {0, 1})

  const ESCAPED: seq<State> := [
    EMPTY,
    Vault(false, map[], []),
    Vault(false, map[0 := Arrived(7)], []),
    Vault(false, map[0 := Checked(7)], []),
    Vault(true, map[0 := Won(7)], []),
    Vault(true, map[0 := Finished], Pair(0, true, true, true)),
    Vault(true, map[0 := Finished, 1 := Arrived(7)], Pair(0, true, true, true)),
    Vault(true, map[0 := Finished, 1 := Searching(CodeTarget(7))], Pair(0, true, true, true)),
    Vault(true, map[0 := Finished, 1 := REPLAY], Pair(0, true, true, true)),
    Vault(true, map[0 := Finished, 1 := REPLAY, 2 := Presented(1)], Pair(0, true, true, true)),
    Vault(true, map[0 := Finished, 1 := REPLAY, 2 := Verified(7, 1)], Pair(0, true, true, true)),
    Vault(true, map[0 := Finished, 1 := REPLAY, 2 := Spent(7, 1)], Pair(0, true, true, false)),
    Vault(true, map[0 := Finished, 1 := REPLAY, 2 := Finished], Pair(0, true, true, false) + Pair(2, false, true, true)),
    Vault(true, map[0 := Finished, 1 := Finished, 2 := Finished], Pair(0, true, false, false) + Pair(2, false, true, true))
  ]

  predicate Moves(s: State, step: Step, t: State) {
    Legal(s, step) && t == Apply(s, step)
  }

  lemma Exchanged()
    ensures forall i :: 0 <= i < 5 ==> Moves(ESCAPED[i], ESCAPE[i], ESCAPED[i + 1])
  {
  }

  lemma Searched()
    ensures forall i :: 5 <= i < 8 ==> Moves(ESCAPED[i], ESCAPE[i], ESCAPED[i + 1])
  {
    assert LiveTokens(ESCAPED[7], CodeTarget(7)) == {0, 1};
  }

  lemma Refreshed()
    ensures forall i :: 8 <= i < 12 ==> Moves(ESCAPED[i], ESCAPE[i], ESCAPED[i + 1])
  {
    assert Revoked(Pair(0, true, true, true), {1}) == Pair(0, true, true, false);
  }

  lemma RevokedTooLate()
    ensures Moves(ESCAPED[12], ESCAPE[12], ESCAPED[13])
  {
    assert Revoked(ESCAPED[12].tokens, {0, 1}) == ESCAPED[13].tokens;
  }

  /**
   * A code is exchanged and presented again; the replay finds the pair, the client refreshes, and the replay
   * revokes what it found: no request was under way as it searched, and yet the new pair is live.
   */
  lemma RefreshEscapesReplay()
    ensures Run(ESCAPED, ESCAPE) && EndsWith(ESCAPED, ESCAPE, 7, 12, 1)
    ensures forall r :: r in ESCAPED[7].requests ==> !CouldMint(ESCAPED[7], r, CodeTarget(7))
    ensures LiveIn(ESCAPED[13], 3, CodeTarget(7)) && ESCAPED[13].tokens[3].refresh && !Dead(ESCAPED[13], CodeTarget(7))
  {
    hide Apply;
    Exchanged();
    Searched();
    Refreshed();
    RevokedTooLate();
    forall i | 0 <= i < |ESCAPE|
      ensures Legal(ESCAPED[i], ESCAPE[i]) && ESCAPED[i + 1] == Apply(ESCAPED[i], ESCAPE[i])
    {
      assert Moves(ESCAPED[i], ESCAPE[i], ESCAPED[i + 1]);
    }
    assert LiveIn(ESCAPED[13], 3, CodeTarget(7));
  }
}
