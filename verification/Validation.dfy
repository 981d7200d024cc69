/**
 * What may enter memory from a provider's answer: `validateCandidate` (apps/api/src/memory-processing/validation.ts)
 * and the screening in extraction-provider.service.ts.
 */
module Validation {
  import opened Common
  import opened Extraction
  import ExtractionRuns

  datatype Message = Message(id: nat, content: string)

  /** A stretch of a message that a candidate quotes as its evidence. */
  datatype Citation = Citation(messageId: nat, start: nat, end: nat, quote: string)

  /** A parsed expiry; `wellFormed` says that it is a full timestamp with a zone, of a real calendar day. */
  datatype Expiry = Expiry(wellFormed: bool, at: int)

  /** A candidate as the provider words it; whether its text looks like a secret is decided elsewhere. */
  datatype Proposal = Proposal(
    candidate: Candidate,
    secretLike: bool,
    restricted: bool,
    categories: seq<nat>,
    evidence: seq<Citation>,
    atomic: bool,
    expiresAt: Option<Expiry>,
    temporalEvidence: Option<string>
  )

  datatype Input = Input(source: Message, context: seq<Message>, categories: set<nat>, now: int)

  function FindMessage(messages: seq<Message>, id: nat): Option<Message> {
    if messages == [] then None
    else if messages[0].id == id then Some(messages[0])
    else FindMessage(messages[1..], id)
  }

  /** Only a confirmation may quote an earlier message. */
  function Quoted(p: Proposal, input: Input, messageId: nat): Option<Message> {
    if messageId == input.source.id then Some(input.source)
    else if p.candidate.intent == Confirmation then FindMessage(input.context, messageId)
    else None
  }

  predicate Verbatim(p: Proposal, input: Input, e: Citation) {
    && Quoted(p, input, e.messageId).Some?
    && e.start < e.end <= |Quoted(p, input, e.messageId).value.content|
    && Quoted(p, input, e.messageId).value.content[e.start..e.end] == e.quote
  }

  predicate PartAt(text: string, part: string, i: int) {
    0 <= i <= |text| - |part| && text[i..i + |part|] == part
  }

  predicate Contains(text: string, part: string) {
    exists i :: 0 <= i <= |text| && PartAt(text, part, i)
  }

  /** The expiry lies ahead and the source says so. */
  predicate ExpiryStands(p: Proposal, input: Input) {
    p.expiresAt.Some? ==>
      && p.temporalEvidence.Some? && p.temporalEvidence.value != ""
      && Contains(input.source.content, p.temporalEvidence.value)
      && p.expiresAt.value.wellFormed && p.expiresAt.value.at > input.now
  }

  predicate CitesSource(p: Proposal, input: Input) {
    exists e :: e in p.evidence && e.messageId == input.source.id
  }

  predicate AllVerbatim(p: Proposal, input: Input) {
    forall e :: e in p.evidence ==> Verbatim(p, input, e)
  }

  function WithDisposition(p: Proposal, disposition: Disposition): Proposal {
    p.(candidate := p.candidate.(disposition := disposition))
  }

  method ValidateCandidate(p: Proposal, input: Input) returns (v: Proposal)
    ensures v == Validated(p, input)
  {
    if p.secretLike || p.restricted {
      return WithDisposition(p, Rejected);
    }
    if exists key :: key in p.categories && key !in input.categories {
      return WithDisposition(p, Rejected);
    }
    if !CitesSource(p, input) {
      return WithDisposition(p, Rejected);
    }
    for i := 0 to |p.evidence|
      invariant forall j :: 0 <= j < i ==> Verbatim(p, input, p.evidence[j])
    {
      var e := p.evidence[i];
      var message := Quoted(p, input, e.messageId);
      if message.None? || e.end <= e.start || e.end > |message.value.content| || message.value.content[e.start..e.end] != e.quote {
        assert !Verbatim(p, input, e);
        return WithDisposition(p, Rejected);
      }
    }
    if !p.atomic {
      return WithDisposition(p, NeedsClarification);
    }
    if !ExpiryStands(p, input) {
      return WithDisposition(p.(expiresAt := None), NeedsClarification);
    }
    return p;
  }

  /** Nothing about the proposal is invented: known categories, and every citation word for word in what the owner wrote. */
  predicate Grounded(p: Proposal, input: Input) {
    && !p.secretLike && !p.restricted
    && (forall key :: key in p.categories ==> key in input.categories)
    && CitesSource(p, input) && AllVerbatim(p, input)
  }

  function Validated(p: Proposal, input: Input): Proposal {
    if !Grounded(p, input) then WithDisposition(p, Rejected)
    else if !p.atomic then WithDisposition(p, NeedsClarification)
    else if !ExpiryStands(p, input) then WithDisposition(p.(expiresAt := None), NeedsClarification)
    else p
  }

  function ValidatedAll(proposals: seq<Proposal>, input: Input): (vs: seq<Proposal>)
    ensures |vs| == |proposals| && forall i :: 0 <= i < |vs| ==> vs[i] == Validated(proposals[i], input)
  {
    seq(|proposals|, i requires 0 <= i < |proposals| => Validated(proposals[i], input))
  }

  function Candidates(proposals: seq<Proposal>): (cs: seq<Candidate>)
    ensures |cs| == |proposals| && forall i :: 0 <= i < |cs| ==> cs[i] == proposals[i].candidate
  {
    seq(|proposals|, i requires 0 <= i < |proposals| => proposals[i].candidate)
  }

  lemma NothingScreened(raw: seq<Candidate>, ids: set<nat>)
    ensures Screen(raw[|raw|..], ids) == []
  {
  }

  /** The provider's candidates are validated, and one that repeats an earlier id is rejected whatever it says. */
  method InvokeProvider(proposals: seq<Proposal>, input: Input) returns (vs: seq<Proposal>)
    ensures Candidates(vs) == Screen(Candidates(ValidatedAll(proposals, input)), {})
    ensures |vs| == |proposals| && forall i :: 0 <= i < |vs| ==> vs[i] == WithDisposition(Validated(proposals[i], input), vs[i].candidate.disposition)
  {
    hide Validated, Screen, Grounded;
    vs := [];
    var ids: set<nat> := {};
    ghost var raw, cs: seq<Candidate> := Candidates(ValidatedAll(proposals, input)), [];
    assert [] + Screen(raw[0..], {}) == Screen(raw, {}) by { assert raw[0..] == raw; }
    for i := 0 to |proposals|
      invariant |vs| == |cs| == i && Screen(raw, {}) == cs + Screen(raw[i..], ids)
      invariant forall j :: 0 <= j < i ==> vs[j].candidate == cs[j]
      invariant forall j :: 0 <= j < i ==> vs[j] == WithDisposition(Validated(proposals[j], input), vs[j].candidate.disposition)
    {
      var valid := ValidateCandidate(proposals[i], input);
      ScreenNext(cs, raw, i, ids);
      var next := if valid.candidate.id in ids then WithDisposition(valid, Rejected) else valid;
      vs, cs, ids := vs + [next], cs + [next.candidate], ids + {valid.candidate.id};
    }
    NothingScreened(raw, ids);
    assert Candidates(vs) == cs;
  }

  // ---------------------------------------------------------------- what is created is grounded

  /** The citation is word for word in the message. */
  predicate WordForWord(m: Message, e: Citation) {
    m.id == e.messageId && e.start < e.end <= |m.content| && m.content[e.start..e.end] == e.quote
  }

  /** The message is the first of the context under its id. */
  predicate FirstAt(context: seq<Message>, i: nat, id: nat) {
    i < |context| && context[i].id == id && forall j :: 0 <= j < i ==> context[j].id != id
  }

  lemma {:induction false} FindsFirst(context: seq<Message>, id: nat)
    ensures FindMessage(context, id).None? <==> forall j :: 0 <= j < |context| ==> context[j].id != id
    ensures forall i: nat :: FirstAt(context, i, id) ==> FindMessage(context, id) == Some(context[i])
  {
    if context != [] {
      FindsFirst(context[1..], id);
      assert forall j :: 0 < j < |context| ==> context[j] == context[1..][j - 1];
      assert forall j :: 0 <= j < |context[1..]| ==> context[1..][j] == context[j + 1];
      forall i: nat | FirstAt(context, i, id)
        ensures FindMessage(context, id) == Some(context[i])
      {
        if i > 0 {
          assert FirstAt(context[1..], i - 1, id);
        }
      }
    }
  }

  lemma {:induction false} SomeFirst(context: seq<Message>, id: nat) returns (i: nat)
    requires exists j :: 0 <= j < |context| && context[j].id == id
    ensures FirstAt(context, i, id)
  {
    if context[0].id == id {
      i := 0;
    } else {
      assert exists j :: 0 <= j < |context[1..]| && context[1..][j].id == id by {
        var j :| 0 <= j < |context| && context[j].id == id;
        assert context[1..][j - 1].id == id;
      }
      var j := SomeFirst(context[1..], id);
      i := j + 1;
      assert forall j :: 0 < j < |context| ==> context[j] == context[1..][j - 1];
    }
  }

  /** A citation holds exactly when it is word for word in the source, or, for a confirmation, in the earlier message it names. */
  lemma VerbatimIff(p: Proposal, input: Input, e: Citation)
    ensures Verbatim(p, input, e) <==>
              if e.messageId == input.source.id then WordForWord(input.source, e)
              else p.candidate.intent == Confirmation &&
                   exists i: nat :: FirstAt(input.context, i, e.messageId) && WordForWord(input.context[i], e)
  {
    FindsFirst(input.context, e.messageId);
    if FindMessage(input.context, e.messageId).Some? {
      var i := SomeFirst(input.context, e.messageId);
      assert FirstAt(input.context, i, e.messageId);
    }
  }

  /** A candidate is grounded exactly when it is neither secret nor restricted, uses known categories only, cites the source, and every citation holds. */
  lemma GroundedIff(p: Proposal, input: Input)
    ensures Grounded(p, input) <==>
              && !p.secretLike && !p.restricted
              && (forall i :: 0 <= i < |p.categories| ==> p.categories[i] in input.categories)
              && (exists i :: 0 <= i < |p.evidence| && p.evidence[i].messageId == input.source.id)
              && (forall i :: 0 <= i < |p.evidence| ==> Verbatim(p, input, p.evidence[i]))
  {
    hide Verbatim;
    assert forall i :: 0 <= i < |p.evidence| ==> p.evidence[i] in p.evidence;
    assert forall i :: 0 <= i < |p.categories| ==> p.categories[i] in p.categories;
  }

  /** An expiry stands exactly when it is a real moment ahead and some stretch of the source is the evidence given for it. */
  lemma ExpiryIff(p: Proposal, input: Input)
    ensures ExpiryStands(p, input) <==>
              p.expiresAt.None? ||
              (p.expiresAt.value.wellFormed && input.now < p.expiresAt.value.at && p.temporalEvidence.Some? && p.temporalEvidence.value != "" &&
               exists before, after :: input.source.content == before + p.temporalEvidence.value + after)
  {
    if p.expiresAt.Some? && p.temporalEvidence.Some? {
      var text, part := input.source.content, p.temporalEvidence.value;
      if Contains(text, part) {
        var i :| 0 <= i <= |text| && PartAt(text, part, i);
        assert text == text[..i] + part + text[i + |part|..];
      }
      if before, after :| text == before + part + after {
        assert PartAt(text, part, |before|);
      }
    }
  }

  /** A candidate comes out eligible exactly when the provider called it so, it is grounded and atomic, its expiry stands and its id is new. */
  lemma EligibleIff(proposals: seq<Proposal>, input: Input, i: nat)
    requires i < |proposals|
    ensures Screen(Candidates(ValidatedAll(proposals, input)), {})[i].disposition == EligibleCandidate <==>
              && proposals[i].candidate.disposition == EligibleCandidate
              && Grounded(proposals[i], input) && proposals[i].atomic && ExpiryStands(proposals[i], input)
              && forall j :: 0 <= j < i ==> proposals[j].candidate.id != proposals[i].candidate.id
  {
    hide Grounded, ExpiryStands;
    var raw := Candidates(ValidatedAll(proposals, input));
    assert forall j :: 0 <= j < |raw| ==> raw[j].id == proposals[j].candidate.id;
    ExtractionRuns.ScreenRejectsIff(raw, {}, i);
  }

  /**
   * What validation makes of a candidate: nothing but its disposition changes, and its expiry is dropped when the source does not bear
   * it out; ungrounded ones are rejected, and grounded ones put to clarification unless they are atomic and their expiry stands.
   */
  lemma ValidatedAs(p: Proposal, input: Input)
    ensures var v := Validated(p, input);
            && v == p.(expiresAt := v.expiresAt, candidate := p.candidate.(disposition := v.candidate.disposition))
            && (v.candidate.disposition == Rejected <==> !Grounded(p, input) || (p.atomic && ExpiryStands(p, input) && p.candidate.disposition == Rejected))
            && (v.candidate.disposition == NeedsClarification <==>
                  Grounded(p, input) && (!p.atomic || !ExpiryStands(p, input) || p.candidate.disposition == NeedsClarification))
            && (v.expiresAt != p.expiresAt ==> v.expiresAt.None?)
            && (v.expiresAt.Some? <==> p.expiresAt.Some? && !(Grounded(p, input) && p.atomic && !ExpiryStands(p, input)))
  {
    hide Grounded;
  }

  /**
   * Every outcome a worker commits is what validation left of some answer about the source message; context and
   * categories are those of the attempt.
   */
  ghost predicate CommitsValidated(steps: seq<Step>, source: Message) {
    forall i :: 0 <= i < |steps| && steps[i].Commit? ==>
      exists proposals: seq<Proposal>, input: Input :: input.source == source && steps[i].raw == Candidates(ValidatedAll(proposals, input))
  }

  lemma {:induction false} CommitOrigin(states: seq<State>, steps: seq<Step>, k: nat, handled: seq<Candidate>) returns (j: nat)
    requires RunOf(states, steps) && k < |states| && handled in states[k].commits
    ensures j < k && steps[j].Commit? && handled == Screen(steps[j].raw, {})
  {
    hide ApplyAll, Screen, CommitBatch, FinalStatus;
    if handled in states[k - 1].commits {
      j := CommitOrigin(states, steps, k - 1, handled);
    } else {
      j := k - 1;
    }
  }

  /**
   * Over every run: whatever record was created from the source, some proposal of the provider stands behind it
   * that is atomic, in known categories, and quotes the owner's words, each of them where it says.
   */
  lemma RecordsAreGrounded(states: seq<State>, steps: seq<Step>, k: nat, source: Message, c: Candidate)
    returns (p: Proposal, input: Input)
    requires RunOf(states, steps) && k < |states| && CommitsValidated(steps, source) && c in states[k].created
    ensures input.source == source && p.candidate == c && Grounded(p, input) && p.atomic && ExpiryStands(p, input)
  {
    hide Grounded, ExpiryStands, Apply, Legal, Screen;
    ExtractionRuns.Reachable(states, steps, k);
    assert ExtractionRuns.Conserved(states[k].commits[0], states[k].receipts, states[k].run.pending, states[k].created);
    var j := CommitOrigin(states, steps, k, states[k].commits[0]);
    var proposals: seq<Proposal>, origin: Input :| origin.source == source && steps[j].raw == Candidates(ValidatedAll(proposals, origin));
    input := origin;
    var i :| 0 <= i < |states[k].commits[0]| && states[k].commits[0][i] == c;
    EligibleIff(proposals, input, i);
    p := proposals[i];
  }
}
