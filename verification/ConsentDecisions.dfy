/**
 * Consent decisions statement by statement (apps/api/src/oauth/oauth-grants.service.ts): `loadPendingRequest` reads the
 * authorization request, and only then a transaction, which does not look again, decides it.
 */
module ConsentDecisions {
  /** Where a call of `approve` or `deny` is. */
  datatype Phase =
    | Arrived(request: nat, approves: bool)
    | Loaded(request: nat, approves: bool)
    | Finished

  /** `decided` says of each authorization request whether decidedAt is set; `codes` names the request of each code. */
  datatype State = State(decided: map<nat, bool>, calls: map<nat, Phase>, codes: seq<nat>)

  datatype Step =
    | Open(request: nat)
    | Arrive(call: nat, request: nat, approves: bool)
    | Load(call: nat, checksPass: bool)
    | Decide(call: nat, clientBlocked: bool)
    | Crash(call: nat)

  predicate Legal(s: State, step: Step) {
    match step
    case Open(request) => request !in s.decided
    case Arrive(call, _, _) => call !in s.calls
    case Load(call, _) => call in s.calls && s.calls[call].Arrived?
    case Decide(call, _) => call in s.calls && s.calls[call].Loaded?
    case Crash(call) => call in s.calls
  }

  /** An approval for a blocked client throws and rolls back. */
  function Apply(s: State, step: Step): State
    requires Legal(s, step)
  {
    match step
    case Open(request) => s.(decided := s.decided[request := false])
    case Arrive(call, request, approves) => s.(calls := s.calls[call := Arrived(request, approves)])
    case Load(call, checksPass) =>
      var phase := s.calls[call];
      s.(calls := s.calls[call :=
        if phase.request in s.decided && !s.decided[phase.request] && checksPass then Loaded(phase.request, phase.approves) else Finished])
    case Decide(call, clientBlocked) =>
      var phase := s.calls[call];
      if phase.approves && clientBlocked then s.(calls := s.calls[call := Finished])
      else State(s.decided[phase.request := true], s.calls[call := Finished], if phase.approves then s.codes + [phase.request] else s.codes)
    case Crash(call) => s.(calls := s.calls[call := Finished])
  }

  const EMPTY := State(map[], map[], [])

  ghost predicate Run(states: seq<State>, steps: seq<Step>) {
    && |states| == |steps| + 1
    && states[0] == EMPTY
    && forall i :: 0 <= i < |steps| ==> Legal(states[i], steps[i]) && states[i + 1] == Apply(states[i], steps[i])
  }

  /** The step decides the request. */
  predicate Decides(s: State, step: Step, request: nat) {
    && step.Decide? && Legal(s, step) && s.calls[step.call].request == request
    && !(s.calls[step.call].approves && step.clientBlocked)
  }

  /** Two calls have both read the request as open. */
  predicate Overlap(s: State, a: nat, b: nat, request: nat) {
    && a != b && a in s.calls && b in s.calls && s.calls[a].Loaded? && s.calls[b].Loaded?
    && s.calls[a].request == request && s.calls[b].request == request
  }

  function CodesOf(codes: seq<nat>, request: nat): nat {
    if codes == [] then 0
    else CodesOf(codes[..|codes| - 1], request) + (if codes[|codes| - 1] == request then 1 else 0)
  }

  predicate Decided(s: State, request: nat) {
    request in s.decided && s.decided[request]
  }

  /** The request is decided and nobody holds it as open. */
  predicate Settled(s: State, request: nat) {
    Decided(s, request) && forall a :: a in s.calls && s.calls[a].Loaded? ==> s.calls[a].request != request
  }

  /** Without overlap: who holds the request as open holds it alone and undecided, an undecided one has no code, a decided one at most one. */
  ghost predicate SingleDecision(s: State, request: nat) {
    && (forall a :: a in s.calls && s.calls[a].Loaded? ==> s.calls[a].request in s.decided)
    && (Decided(s, request) ==> Settled(s, request))
    && CodesOf(s.codes, request) <= (if Decided(s, request) then 1 else 0)
  }

  lemma StepKeepsSingleDecision(s: State, step: Step, request: nat)
    requires SingleDecision(s, request) && Legal(s, step) && forall a, b :: !Overlap(s, a, b, request)
    ensures SingleDecision(Apply(s, step), request)
    ensures Settled(s, request) ==> !Decides(s, step, request)
  {
    var t := Apply(s, step);
    if step.Decide? && |t.codes| > |s.codes| {
      assert t.codes[..|s.codes|] == s.codes;
    }
    if Decides(s, step, request) {
      forall a | a in t.calls && t.calls[a].Loaded?
        ensures t.calls[a].request != request
      {
        assert !Overlap(s, a, step.call, request);
      }
    }
  }

  lemma {:induction false} SingleUntilOverlap(states: seq<State>, steps: seq<Step>, k: nat, request: nat)
    requires Run(states, steps) && k < |states|
    requires forall j, a, b :: 0 <= j < k ==> !Overlap(states[j], a, b, request)
    ensures SingleDecision(states[k], request)
  {
    hide Apply, Legal, Overlap;
    if k > 0 {
      SingleUntilOverlap(states, steps, k - 1, request);
      StepKeepsSingleDecision(states[k - 1], steps[k - 1], request);
    } else {
      NothingDecided(request);
    }
  }

  lemma NothingDecided(request: nat)
    ensures SingleDecision(EMPTY, request)
  {
  }

  lemma {:induction false} DecidedStays(states: seq<State>, steps: seq<Step>, i: nat, j: nat, request: nat)
    requires Run(states, steps) && i <= j < |states| && Decided(states[i], request)
    ensures Decided(states[j], request)
    decreases j
  {
    if i < j {
      DecidedStays(states, steps, i, j - 1, request);
    }
  }

  /**
   * As long as no two calls held the request as open at once, it is decided at most once and has at most one
   * code, whatever else runs.
   */
  lemma DecidedOnceUnlessOverlap(states: seq<State>, steps: seq<Step>, request: nat, i: nat, j: nat)
    requires Run(states, steps) && i < |steps| && j < |steps|
    requires forall k, a, b :: 0 <= k < |states| ==> !Overlap(states[k], a, b, request)
    requires Decides(states[i], steps[i], request) && Decides(states[j], steps[j], request)
    ensures i == j
    ensures CodesOf(states[|steps|].codes, request) <= 1
  {
    hide Apply, Legal, Overlap, Decides, Settled;
    SingleUntilOverlap(states, steps, |steps|, request);
    if i < j {
      DecidedOnceBefore(states, steps, request, i, j);
    } else if j < i {
      DecidedOnceBefore(states, steps, request, j, i);
    }
  }

  lemma DecidedOnceBefore(states: seq<State>, steps: seq<Step>, request: nat, i: nat, j: nat)
    requires Run(states, steps) && i < j < |steps|
    requires forall k, a, b :: 0 <= k < |states| ==> !Overlap(states[k], a, b, request)
    requires Decides(states[i], steps[i], request)
    ensures !Decides(states[j], steps[j], request)
  {
    hide Overlap, Settled;
    DecidedStays(states, steps, i + 1, j, request);
    SingleUntilOverlap(states, steps, j, request);
    StepKeepsSingleDecision(states[j], steps[j], request);
  }

  /** Two approvals that hold the request at once can both be committed, and then it has two codes more. */
  lemma OverlapDecidesTwice(s: State, a: nat, b: nat, request: nat)
    requires Overlap(s, a, b, request) && s.calls[a].approves && s.calls[b].approves
    ensures Decides(s, Decide(a, false), request)
    ensures var mid := Apply(s, Decide(a, false));
            Decides(mid, Decide(b, false), request) &&
            CodesOf(Apply(mid, Decide(b, false)).codes, request) == CodesOf(s.codes, request) + 2
  {
    var mid := Apply(s, Decide(a, false));
    var t := Apply(mid, Decide(b, false));
    assert mid.codes[..|s.codes|] == s.codes && t.codes[..|mid.codes|] == mid.codes;
  }
}
