/** Pair discovery and batched judging: consolidation-candidates.service.ts and consolidation-llm.service.ts. */
module Judge {
  import opened Common
  import opened Processing
  import opened Consolidation

  const MAX_SELECTED := 1000
  const MAX_LLM_PAIRS := 30

  // ---------------------------------------------------------------- discovery of pairs

  datatype Pair = Pair(recent: Memory, candidate: Memory, score: real)

  function ScoreOf(p: Pair): real { p.score }

  /** The two ids in sorted order. */
  function PairKey(p: Pair): (nat, nat) {
    if p.recent.id <= p.candidate.id then (p.recent.id, p.candidate.id) else (p.candidate.id, p.recent.id)
  }

  /** Two pairs have one key exactly when they are of the same two memories, in either order. */
  lemma KeyIsUnordered(p: Pair, q: Pair)
    ensures PairKey(p) == PairKey(q) <==>
              (p.recent.id == q.recent.id && p.candidate.id == q.candidate.id) || (p.recent.id == q.candidate.id && p.candidate.id == q.recent.id)
  {
  }

  function Keys(pairs: seq<Pair>): set<(nat, nat)> {
    set p | p in pairs :: PairKey(p)
  }

  /** Set an entry of an insertion-ordered map: an existing key keeps its place. */
  function Put(entries: seq<Pair>, p: Pair, keepBetter: bool): seq<Pair> {
    if entries == [] then [p]
    else if PairKey(entries[0]) == PairKey(p) then
      if keepBetter && entries[0].score >= p.score then entries else [p] + entries[1..]
    else [entries[0]] + Put(entries[1..], p, keepBetter)
  }

  lemma {:induction false} PutKeeps(entries: seq<Pair>, p: Pair, keepBetter: bool)
    requires DistinctBy(entries, PairKey)
    ensures DistinctBy(Put(entries, p, keepBetter), PairKey)
    ensures Keys(Put(entries, p, keepBetter)) == Keys(entries) + {PairKey(p)}
    ensures forall q :: q in Put(entries, p, keepBetter) ==> q in entries || q == p
  {
    if entries != [] {
      DistinctTail(entries, PairKey);
      assert entries == [entries[0]] + entries[1..];
      KeysCons(entries[0], entries[1..]);
      if PairKey(entries[0]) == PairKey(p) {
        DistinctCons(p, entries[1..], PairKey);
        KeysCons(p, entries[1..]);
      } else {
        PutKeeps(entries[1..], p, keepBetter);
        var rest := Put(entries[1..], p, keepBetter);
        forall q | q in rest
          ensures PairKey(q) != PairKey(entries[0])
        {
        }
        DistinctCons(entries[0], rest, PairKey);
        KeysCons(entries[0], rest);
      }
    }
  }

  /** Within one recent memory the better of two scores for a pair of ids stays. */
  lemma {:induction false} PutKeepsBetter(entries: seq<Pair>, p: Pair, q: Pair)
    requires DistinctBy(entries, PairKey) && q in Put(entries, p, true) && PairKey(q) == PairKey(p)
    ensures q.score >= p.score && forall r :: r in entries && PairKey(r) == PairKey(p) ==> q.score >= r.score
  {
    if entries != [] {
      DistinctTail(entries, PairKey);
      assert entries == [entries[0]] + entries[1..];
      if PairKey(entries[0]) != PairKey(p) {
        PutKeepsBetter(entries[1..], p, q);
      }
    }
  }

  lemma KeysCons(p: Pair, rest: seq<Pair>)
    ensures Keys([p] + rest) == {PairKey(p)} + Keys(rest)
  {
  }

  function PutEach(entries: seq<Pair>, more: seq<Pair>, keepBetter: bool): seq<Pair> {
    if more == [] then entries
    else Put(PutEach(entries, more[..|more| - 1], keepBetter), more[|more| - 1], keepBetter)
  }

  /** The map after `n` recent memories: each one's lexical pairs, then its semantic ones where they score better. */
  function Discovered(lexical: seq<seq<Pair>>, semantic: seq<seq<Pair>>, n: nat): seq<Pair>
    requires n <= |lexical| == |semantic|
  {
    if n == 0 then []
    else PutEach(PutEach(Discovered(lexical, semantic, n - 1), lexical[n - 1], false), semantic[n - 1], true)
  }

  /** `findRecentCandidatePairs`, given what the lexical and semantic queries find for each recent memory. */
  method FindRecentCandidatePairs(lexical: seq<seq<Pair>>, semantic: seq<seq<Pair>>, limit: nat)
    returns (found: seq<Pair>)
    requires |lexical| == |semantic|
    ensures found == Take(Sort(Discovered(lexical, semantic, |lexical|), ScoreOf), limit)
  {
    hide Put, PutEach, Sort;
    var pairs: seq<Pair> := [];
    for i := 0 to |lexical|
      invariant pairs == Discovered(lexical, semantic, i)
    {
      pairs := PutAll(pairs, lexical[i], false);
      pairs := PutAll(pairs, semantic[i], true);
    }
    found := Take(Sort(pairs, ScoreOf), limit);
  }

  method PutAll(entries: seq<Pair>, more: seq<Pair>, keepBetter: bool) returns (r: seq<Pair>)
    ensures r == PutEach(entries, more, keepBetter)
  {
    r := entries;
    for j := 0 to |more|
      invariant r == PutEach(entries, more[..j], keepBetter)
    {
      assert more[..j + 1][..j] == more[..j];
      r := Put(r, more[j], keepBetter);
    }
    assert more[..|more|] == more;
  }

  lemma {:induction false} PutEachKeeps(entries: seq<Pair>, more: seq<Pair>, keepBetter: bool)
    requires DistinctBy(entries, PairKey)
    ensures DistinctBy(PutEach(entries, more, keepBetter), PairKey)
    ensures Keys(PutEach(entries, more, keepBetter)) == Keys(entries) + Keys(more)
    ensures forall p :: p in PutEach(entries, more, keepBetter) ==> p in entries || p in more
  {
    hide Put, DistinctBy, Keys;
    if more == [] {
      assert Keys(more) == {} by { NoKeys(); }
    } else {
      var n := |more| - 1;
      PutEachKeeps(entries, more[..n], keepBetter);
      PutKeeps(PutEach(entries, more[..n], keepBetter), more[n], keepBetter);
      KeysSnoc(more[..n], more[n]);
      assert more == more[..n] + [more[n]];
    }
  }

  lemma NoKeys()
    ensures Keys([]) == {} && DistinctBy([], PairKey)
  {
  }

  lemma KeysSnoc(pairs: seq<Pair>, p: Pair)
    ensures Keys(pairs + [p]) == Keys(pairs) + {PairKey(p)}
  {
  }

  lemma {:induction false} DiscoveredExactly(lexical: seq<seq<Pair>>, semantic: seq<seq<Pair>>, n: nat)
    requires n <= |lexical| == |semantic|
    ensures DistinctBy(Discovered(lexical, semantic, n), PairKey)
    ensures forall i :: 0 <= i < n ==>
              Keys(lexical[i]) <= Keys(Discovered(lexical, semantic, n)) && Keys(semantic[i]) <= Keys(Discovered(lexical, semantic, n))
    ensures forall p :: p in Discovered(lexical, semantic, n) ==> FoundIn(p, lexical, n) || FoundIn(p, semantic, n)
  {
    hide PutEach, DistinctBy, Keys;
    if n == 0 {
      NoKeys();
    } else {
      DiscoveredExactly(lexical, semantic, n - 1);
      var before := Discovered(lexical, semantic, n - 1);
      PutEachKeeps(before, lexical[n - 1], false);
      PutEachKeeps(PutEach(before, lexical[n - 1], false), semantic[n - 1], true);
      forall p | p in Discovered(lexical, semantic, n)
        ensures FoundIn(p, lexical, n) || FoundIn(p, semantic, n)
      {
        if p in before {
          assert FoundIn(p, lexical, n - 1) || FoundIn(p, semantic, n - 1);
        }
      }
    }
  }

  predicate FoundIn(p: Pair, queries: seq<seq<Pair>>, n: nat)
    requires n <= |queries|
  {
    exists i :: 0 <= i < n && p in queries[i]
  }

  /** The pairs sent on: best score first, every unordered pair of ids at most once, and each found by some query. */
  lemma PairsSound(lexical: seq<seq<Pair>>, semantic: seq<seq<Pair>>, limit: nat)
    requires |lexical| == |semantic|
    ensures var found := Take(Sort(Discovered(lexical, semantic, |lexical|), ScoreOf), limit);
            && DistinctBy(found, PairKey) && Descending(found, ScoreOf) && |found| <= limit
            && (forall p :: p in found ==> FoundIn(p, lexical, |lexical|) || FoundIn(p, semantic, |lexical|))
  {
    hide Discovered, FoundIn;
    var all := Discovered(lexical, semantic, |lexical|);
    DiscoveredExactly(lexical, semantic, |lexical|);
    SortSorts(all, ScoreOf);
    SortDistinct(all, ScoreOf, PairKey);
    var found := Take(Sort(all, ScoreOf), limit);
    assert forall p :: p in found ==> p in Sort(all, ScoreOf);
  }

  // ---------------------------------------------------------------- when the best score is kept

  /** One `set` of the map: a lexical pair overwrites, a semantic one only if it scores better. */
  datatype Entry = Entry(pair: Pair, lexical: bool)

  function Tagged(pairs: seq<Pair>, lexical: bool): (entries: seq<Entry>)
    ensures |entries| == |pairs| && forall i :: 0 <= i < |pairs| ==> entries[i] == Entry(pairs[i], lexical)
  {
    if pairs == [] then [] else Tagged(pairs[..|pairs| - 1], lexical) + [Entry(pairs[|pairs| - 1], lexical)]
  }

  /** Everything the first `n` queries put into the map, in order. */
  function History(lexical: seq<seq<Pair>>, semantic: seq<seq<Pair>>, n: nat): seq<Entry>
    requires n <= |lexical| == |semantic|
  {
    if n == 0 then []
    else History(lexical, semantic, n - 1) + Tagged(lexical[n - 1], true) + Tagged(semantic[n - 1], false)
  }

  function Replay(start: seq<Pair>, history: seq<Entry>): seq<Pair> {
    if history == [] then start
    else
      var last := history[|history| - 1];
      Put(Replay(start, history[..|history| - 1]), last.pair, !last.lexical)
  }

  lemma {:induction false} ReplayAppend(start: seq<Pair>, xs: seq<Entry>, ys: seq<Entry>)
    ensures Replay(start, xs + ys) == Replay(Replay(start, xs), ys)
  {
    hide Put;
    if ys == [] {
      assert xs + [] == xs;
    } else {
      var n := |ys| - 1;
      assert (xs + ys)[..|xs + ys| - 1] == xs + ys[..n];
      ReplayAppend(start, xs, ys[..n]);
    }
  }

  lemma {:induction false} ReplayTagged(start: seq<Pair>, pairs: seq<Pair>, lexical: bool)
    ensures Replay(start, Tagged(pairs, lexical)) == PutEach(start, pairs, !lexical)
  {
    hide Put;
    if pairs != [] {
      var n := |pairs| - 1;
      ReplayTagged(start, pairs[..n], lexical);
      assert Tagged(pairs, lexical)[..n] == Tagged(pairs[..n], lexical);
    }
  }

  lemma {:induction false} DiscoveredReplays(lexical: seq<seq<Pair>>, semantic: seq<seq<Pair>>, n: nat)
    requires n <= |lexical| == |semantic|
    ensures Discovered(lexical, semantic, n) == Replay([], History(lexical, semantic, n))
  {
    hide Put, PutEach, Replay, Tagged;
    if n == 0 {
      NothingReplayed();
    } else {
      DiscoveredReplays(lexical, semantic, n - 1);
      var before := History(lexical, semantic, n - 1);
      ReplayAppend([], before + Tagged(lexical[n - 1], true), Tagged(semantic[n - 1], false));
      ReplayAppend([], before, Tagged(lexical[n - 1], true));
      ReplayTagged(Replay([], before), lexical[n - 1], true);
      ReplayTagged(Replay([], before + Tagged(lexical[n - 1], true)), semantic[n - 1], false);
    }
  }

  lemma NothingReplayed()
    ensures Replay([], []) == []
  {
  }

  /** Entry i is for the unordered pair of ids. */
  predicate IsFor(history: seq<Entry>, i: int, key: (nat, nat)) {
    0 <= i < |history| && PairKey(history[i].pair) == key
  }

  /** What the map holds for the ids. */
  function KeptFor(history: seq<Entry>, key: (nat, nat)): (kept: Option<Pair>)
    ensures kept.Some? ==> PairKey(kept.value) == key
  {
    if history == [] then None
    else
      var last, before := history[|history| - 1], KeptFor(history[..|history| - 1], key);
      if PairKey(last.pair) != key then before
      else if !last.lexical && before.Some? && before.value.score >= last.pair.score then before
      else Some(last.pair)
  }

  lemma {:induction false} PutMembers(entries: seq<Pair>, p: Pair, keepBetter: bool, q: Pair)
    requires DistinctBy(entries, PairKey)
    ensures PairKey(q) != PairKey(p) ==> (q in Put(entries, p, keepBetter) <==> q in entries)
    ensures PairKey(q) == PairKey(p) ==>
              (q in Put(entries, p, keepBetter) <==>
                 if keepBetter && exists r :: r in entries && PairKey(r) == PairKey(p) && r.score >= p.score then q in entries else q == p)
  {
    if entries != [] {
      DistinctTail(entries, PairKey);
      assert entries == [entries[0]] + entries[1..];
      PutMembers(entries[1..], p, keepBetter, q);
    }
  }

  lemma {:induction false} ReplayKeeps(history: seq<Entry>)
    ensures DistinctBy(Replay([], history), PairKey)
    ensures forall q :: q in Replay([], history) <==> KeptFor(history, PairKey(q)) == Some(q)
  {
    hide Put, DistinctBy;
    if history == [] {
      NoKeys();
    } else {
      var n := |history| - 1;
      ReplayKeeps(history[..n]);
      PutKeeps(Replay([], history[..n]), history[n].pair, !history[n].lexical);
      forall q
        ensures q in Replay([], history) <==> KeptFor(history, PairKey(q)) == Some(q)
      {
        PutMembers(Replay([], history[..n]), history[n].pair, !history[n].lexical, q);
        if PairKey(q) == PairKey(history[n].pair) && KeptFor(history[..n], PairKey(q)).Some? {
          assert KeptFor(history[..n], PairKey(q)).value in Replay([], history[..n]);
        }
      }
    }
  }

  /** The position of the last lexical entry for the ids, or -1. */
  function LastLexical(history: seq<Entry>, key: (nat, nat)): (last: int)
    ensures -1 <= last < |history|
  {
    if history == [] then -1
    else
      var entry := history[|history| - 1];
      if PairKey(entry.pair) == key && entry.lexical then |history| - 1 else LastLexical(history[..|history| - 1], key)
  }

  lemma {:induction false} LastLexicalIsLast(history: seq<Entry>, key: (nat, nat))
    ensures var last := LastLexical(history, key);
            && (last >= 0 ==> IsFor(history, last, key) && history[last].lexical)
            && forall i :: last < i && IsFor(history, i, key) ==> !history[i].lexical
  {
    if history != [] {
      LastLexicalIsLast(history[..|history| - 1], key);
      assert forall i :: IsFor(history, i, key) && i < |history| - 1 ==> IsFor(history[..|history| - 1], i, key);
    }
  }

  /** The pair is one put at or after position `last`, and the best of those. */
  ghost predicate BestSince(q: Pair, history: seq<Entry>, key: (nat, nat), last: int) {
    && (exists i :: last <= i && IsFor(history, i, key) && history[i].pair == q)
    && forall i :: last <= i && IsFor(history, i, key) ==> q.score >= history[i].pair.score
  }

  lemma {:induction false} NothingKept(history: seq<Entry>, key: (nat, nat))
    requires KeptFor(history, key).None?
    ensures forall i :: !IsFor(history, i, key)
    ensures LastLexical(history, key) == -1
  {
    if history != [] {
      NothingKept(history[..|history| - 1], key);
      assert forall i :: IsFor(history, i, key) && i < |history| - 1 ==> IsFor(history[..|history| - 1], i, key);
    }
  }

  /** What the map holds is the best entry at or after the last lexical one. */
  lemma {:induction false} KeptIsBestSince(history: seq<Entry>, key: (nat, nat))
    requires KeptFor(history, key).Some?
    ensures BestSince(KeptFor(history, key).value, history, key, LastLexical(history, key))
  {
    var n := |history| - 1;
    var init, last := history[..n], LastLexical(history, key);
    assert forall i :: IsFor(history, i, key) && i < n ==> IsFor(init, i, key) && init[i] == history[i];
    assert forall i :: IsFor(init, i, key) ==> IsFor(history, i, key) && init[i] == history[i];
    if KeptFor(init, key).None? {
      NothingKept(init, key);
      assert IsFor(history, n, key);
    } else {
      KeptIsBestSince(init, key);
      var i :| LastLexical(init, key) <= i && IsFor(init, i, key) && init[i].pair == KeptFor(init, key).value;
      assert IsFor(history, i, key) && history[i].pair == KeptFor(init, key).value;
    }
  }

  /** A pair of the ids that one of the first `n` recent memories' queries found. */
  predicate Finds(lexical: seq<seq<Pair>>, semantic: seq<seq<Pair>>, n: nat, p: Pair)
    requires n <= |lexical| == |semantic|
  {
    FoundIn(p, lexical, n) || FoundIn(p, semantic, n)
  }

  predicate Recorded(history: seq<Entry>, p: Pair) {
    exists i :: 0 <= i < |history| && history[i].pair == p
  }

  lemma RecordedAppend(xs: seq<Entry>, ys: seq<Entry>, p: Pair)
    ensures Recorded(xs + ys, p) <==> Recorded(xs, p) || Recorded(ys, p)
  {
    if Recorded(xs, p) {
      var i :| 0 <= i < |xs| && xs[i].pair == p;
      assert (xs + ys)[i].pair == p;
    }
    if Recorded(ys, p) {
      var i :| 0 <= i < |ys| && ys[i].pair == p;
      assert (xs + ys)[|xs| + i].pair == p;
    }
  }

  lemma RecordedTagged(pairs: seq<Pair>, lexical: bool, p: Pair)
    ensures Recorded(Tagged(pairs, lexical), p) <==> p in pairs
  {
    if p in pairs {
      var i :| 0 <= i < |pairs| && pairs[i] == p;
      assert Tagged(pairs, lexical)[i].pair == p;
    }
  }

  lemma {:induction false} HistoryExactly(lexical: seq<seq<Pair>>, semantic: seq<seq<Pair>>, n: nat, p: Pair)
    requires n <= |lexical| == |semantic|
    ensures Finds(lexical, semantic, n, p) <==> Recorded(History(lexical, semantic, n), p)
  {
    hide Recorded, Tagged;
    if n == 0 {
      assert !Recorded([], p) by { NothingRecorded(p); }
    } else {
      HistoryExactly(lexical, semantic, n - 1, p);
      var before := History(lexical, semantic, n - 1);
      RecordedAppend(before, Tagged(lexical[n - 1], true), p);
      RecordedAppend(before + Tagged(lexical[n - 1], true), Tagged(semantic[n - 1], false), p);
      RecordedTagged(lexical[n - 1], true, p);
      RecordedTagged(semantic[n - 1], false, p);
    }
  }

  lemma NothingRecorded(p: Pair)
    ensures !Recorded([], p)
  {
  }

  /**
   * The map keeps the best score of a pair of ids exactly when no pair of theirs put before the last lexical
   * one beats all that were put since.
   */
  lemma BestKeptIff(lexical: seq<seq<Pair>>, semantic: seq<seq<Pair>>, n: nat, q: Pair)
    requires n <= |lexical| == |semantic| && q in Discovered(lexical, semantic, n)
    ensures var history := History(lexical, semantic, n);
            var last := LastLexical(history, PairKey(q));
            (forall p :: Finds(lexical, semantic, n, p) && PairKey(p) == PairKey(q) ==> q.score >= p.score) <==>
              forall i :: i < last && IsFor(history, i, PairKey(q)) ==> Beaten(history, i, PairKey(q), last)
  {
    hide Discovered, History, Finds, IsFor, KeptFor, Replay;
    var history, key := History(lexical, semantic, n), PairKey(q);
    var last := LastLexical(history, key);
    DiscoveredReplays(lexical, semantic, n);
    ReplayKeeps(history);
    KeptIsBestSince(history, key);
    BestIff(lexical, semantic, n, q, last);
  }

  /** Some entry at or after `last` scores at least as much as entry i. */
  ghost predicate Beaten(history: seq<Entry>, i: int, key: (nat, nat), last: int)
    requires IsFor(history, i, key)
  {
    exists j :: last <= j && IsFor(history, j, key) && history[j].pair.score >= history[i].pair.score
  }

  lemma BestIff(lexical: seq<seq<Pair>>, semantic: seq<seq<Pair>>, n: nat, q: Pair, last: int)
    requires n <= |lexical| == |semantic| && BestSince(q, History(lexical, semantic, n), PairKey(q), last)
    ensures (forall p :: Finds(lexical, semantic, n, p) && PairKey(p) == PairKey(q) ==> q.score >= p.score) <==>
              forall i :: i < last && IsFor(History(lexical, semantic, n), i, PairKey(q)) ==>
                Beaten(History(lexical, semantic, n), i, PairKey(q), last)
  {
    hide History, Finds;
    var history, key := History(lexical, semantic, n), PairKey(q);
    if forall p :: Finds(lexical, semantic, n, p) && PairKey(p) == key ==> q.score >= p.score {
      forall i | i < last && IsFor(history, i, key)
        ensures Beaten(history, i, key, last)
      {
        HistoryExactly(lexical, semantic, n, history[i].pair);
        var j :| last <= j && IsFor(history, j, key) && history[j].pair == q;
      }
    }
    if forall i :: i < last && IsFor(history, i, key) ==> Beaten(history, i, key, last) {
      forall p | Finds(lexical, semantic, n, p) && PairKey(p) == key
        ensures q.score >= p.score
      {
        HistoryExactly(lexical, semantic, n, p);
        var i :| 0 <= i < |history| && history[i].pair == p;
        assert IsFor(history, i, key);
      }
    }
  }

  /** Without a lexical pair of the two ids, the best semantic score is always the one kept. */
  lemma SemanticKeepsBest(lexical: seq<seq<Pair>>, semantic: seq<seq<Pair>>, n: nat, q: Pair)
    requires n <= |lexical| == |semantic| && q in Discovered(lexical, semantic, n)
    requires forall p :: FoundIn(p, lexical, n) ==> PairKey(p) != PairKey(q)
    ensures forall p :: Finds(lexical, semantic, n, p) && PairKey(p) == PairKey(q) ==> q.score >= p.score
  {
    hide Discovered, History, FoundIn;
    BestKeptIff(lexical, semantic, n, q);
    LexicalAreFound(lexical, semantic, n, LastLexical(History(lexical, semantic, n), PairKey(q)));
    LastLexicalIsLast(History(lexical, semantic, n), PairKey(q));
  }

  lemma {:induction false} LexicalAreFound(lexical: seq<seq<Pair>>, semantic: seq<seq<Pair>>, n: nat, i: int)
    requires n <= |lexical| == |semantic|
    ensures 0 <= i < |History(lexical, semantic, n)| && History(lexical, semantic, n)[i].lexical ==>
              FoundIn(History(lexical, semantic, n)[i].pair, lexical, n)
  {
    if n > 0 && 0 <= i < |History(lexical, semantic, n)| && History(lexical, semantic, n)[i].lexical {
      var before := History(lexical, semantic, n - 1);
      if i < |before| {
        LexicalAreFound(lexical, semantic, n - 1, i);
        assert FoundIn(before[i].pair, lexical, n - 1);
      } else {
        assert History(lexical, semantic, n)[i] == Tagged(lexical[n - 1], true)[i - |before|];
      }
    }
  }

  /**
   * The better score is not always the one kept: a later memory's lexical pair replaces an earlier
   * semantic pair of the same two ids, whatever their scores.
   */
  lemma LexicalReplacesBetter(p: Pair, q: Pair)
    requires PairKey(p) == PairKey(q) && p.score > q.score
    ensures Discovered([[], [q]], [[p], []], 2) == [q]
  {
    var lexical: seq<seq<Pair>>, semantic: seq<seq<Pair>> := [[], [q]], [[p], []];
    PutNothing([]);
    PutOnly([], p, true);
    assert Discovered(lexical, semantic, 1) == [p] by {
      assert Discovered(lexical, semantic, 0) == [];
    }
    PutOnly([p], q, false);
    PutNothing([q]);
    PutNothing([p]);
  }

  lemma PutNothing(entries: seq<Pair>)
    ensures PutEach(entries, [], true) == entries && PutEach(entries, [], false) == entries
  {
  }

  lemma PutOnly(entries: seq<Pair>, p: Pair, keepBetter: bool)
    ensures PutEach(entries, [p], keepBetter) == Put(entries, p, keepBetter)
  {
  }

  // ---------------------------------------------------------------- which memories may be sent

  datatype Exclusion = Unavailable | NotApproved | IsExpired | AboveSensitivityLimit | SecretLike

  function ExclusionReason(m: Memory, maxSensitivity: nat, now: int): (reason: Option<Exclusion>)
    ensures reason.None? <==>
              m.status == ActiveMemory && m.approved && Unexpired(m.expiresAt, now) && m.sensitivity <= maxSensitivity && !m.secretLike
  {
    if m.status != ActiveMemory then Some(Unavailable)
    else if !m.approved then Some(NotApproved)
    else if m.expiresAt.Some? && m.expiresAt.value <= now then Some(IsExpired)
    else if m.sensitivity > maxSensitivity then Some(AboveSensitivityLimit)
    else if m.secretLike then Some(SecretLike)
    else None
  }

  predicate Permitted(m: Memory, maxSensitivity: nat, now: int) {
    ExclusionReason(m, maxSensitivity, now).None?
  }

  function EligiblePairs(pairs: seq<Pair>, maxSensitivity: nat, now: int): seq<Pair> {
    Filter(pairs, (p: Pair) => Permitted(p.recent, maxSensitivity, now) && Permitted(p.candidate, maxSensitivity, now))
  }

  function Take<T>(xs: seq<T>, n: nat): seq<T> {
    if |xs| <= n then xs else xs[..n]
  }

  // ---------------------------------------------------------------- batches

  datatype Side = ArchiveLeft | ArchiveRight

  datatype DecisionReason = Duplicate | Conflict | Replaced

  /** `pairId` k stands for the name pair_k; a name of any other shape is a number past the last pair. */
  datatype Decision = Decision(pairId: nat, archive: Side, reason: DecisionReason)

  datatype Stop = Blocked | ProviderFailure

  /** What the provider call for a batch yields, or why it threw. */
  datatype Answer = Judged(decisions: seq<Decision>) | Threw(stop: Stop)

  /** How many of `n` selected pairs are in batches that were answered, from `offset` on. */
  function JudgedUpTo(n: nat, answers: nat -> Answer, offset: nat): (judged: nat)
    requires offset < n + MAX_LLM_PAIRS
    ensures judged <= n
    decreases n + MAX_LLM_PAIRS - offset
  {
    if offset >= n then n
    else if answers(offset).Threw? then offset
    else if offset + MAX_LLM_PAIRS >= n then n
    else JudgedUpTo(n, answers, offset + MAX_LLM_PAIRS)
  }

  /** The answered decisions in order. */
  function DecisionsFrom(n: nat, answers: nat -> Answer, offset: nat): seq<Decision>
    decreases n - offset
  {
    if offset >= n || answers(offset).Threw? then []
    else answers(offset).decisions + DecisionsFrom(n, answers, offset + MAX_LLM_PAIRS)
  }

  /** The batch loop: stops at the first batch that throws. */
  method RunBatches(n: nat, answers: nat -> Answer) returns (decisions: seq<Decision>, judged: nat, stop: Option<Stop>)
    ensures judged == JudgedUpTo(n, answers, 0) && decisions == DecisionsFrom(n, answers, 0)
    ensures stop.None? <==> judged == n
    ensures stop.Some? ==> judged < n && judged % MAX_LLM_PAIRS == 0 && answers(judged) == Threw(stop.value)
    ensures forall k :: 0 <= k < judged && k % MAX_LLM_PAIRS == 0 ==> answers(k).Judged?
  {
    decisions, judged, stop := [], 0, None;
    var offset := 0;
    while offset < n
      invariant offset % MAX_LLM_PAIRS == 0 && offset < n + MAX_LLM_PAIRS
      invariant judged == if offset <= n then offset else n
      invariant JudgedUpTo(n, answers, 0) == JudgedUpTo(n, answers, offset)
      invariant DecisionsFrom(n, answers, 0) == decisions + DecisionsFrom(n, answers, offset)
      invariant forall k :: 0 <= k < judged && k % MAX_LLM_PAIRS == 0 ==> answers(k).Judged?
    {
      match answers(offset)
      case Threw(why) =>
        stop := Some(why);
        assert DecisionsFrom(n, answers, offset) == [];
        return;
      case Judged(more) =>
        decisions := decisions + more;
        judged := if offset + MAX_LLM_PAIRS <= n then offset + MAX_LLM_PAIRS else n;
        NoMultipleBetween(offset, judged);
        offset := offset + MAX_LLM_PAIRS;
    }
  }

  /** How many decisions the first `b` batches of thirty came to. */
  function LengthBefore(answers: nat -> Answer, b: nat): nat {
    if b == 0 then 0
    else LengthBefore(answers, b - 1) + (if answers(30 * (b - 1)).Judged? then |answers(30 * (b - 1)).decisions| else 0)
  }

  lemma {:induction false} LengthGrows(answers: nat -> Answer, b: nat, c: nat)
    requires b <= c
    ensures LengthBefore(answers, b) <= LengthBefore(answers, c)
  {
    if b < c {
      LengthGrows(answers, b, c - 1);
    }
  }

  lemma {:induction false} DecisionsFollow(n: nat, answers: nat -> Answer, b: nat)
    requires 30 * b < n + 30
    ensures var judged := JudgedUpTo(n, answers, 30 * b);
            && (30 * b < n ==> 30 * b <= judged)
            && |DecisionsFrom(n, answers, 30 * b)| == LengthBefore(answers, (judged + 29) / 30) - LengthBefore(answers, b)
    decreases n + 30 - 30 * b
  {
    if 30 * b < n && answers(30 * b).Judged? {
      if 30 * b + 30 < n {
        assert 30 * (b + 1) == 30 * b + 30;
        DecisionsFollow(n, answers, b + 1);
      } else {
        assert DecisionsFrom(n, answers, 30 * b + 30) == [];
      }
    }
  }

  lemma {:induction false} DecisionsAt(n: nat, answers: nat -> Answer, b: nat, c: nat)
    requires 30 * b < n + 30 && b <= c && 30 * c < JudgedUpTo(n, answers, 30 * b) && 30 * b < n
    ensures answers(30 * c).Judged?
    ensures var at := LengthBefore(answers, c) - LengthBefore(answers, b);
            && 0 <= at && at + |answers(30 * c).decisions| <= |DecisionsFrom(n, answers, 30 * b)|
            && DecisionsFrom(n, answers, 30 * b)[at..at + |answers(30 * c).decisions|] == answers(30 * c).decisions
    decreases n + 30 - 30 * b
  {
    assert 30 * (b + 1) == 30 * b + 30;
    var first := answers(30 * b).decisions;
    if b < c {
      DecisionsAt(n, answers, b + 1, c);
      LengthGrows(answers, b + 1, c);
      var rest := DecisionsFrom(n, answers, 30 * (b + 1));
      var at := LengthBefore(answers, c) - LengthBefore(answers, b + 1);
      assert (first + rest)[|first| + at..|first| + at + |answers(30 * c).decisions|] == rest[at..at + |answers(30 * c).decisions|];
    }
  }

  /** The offset of a batch that was judged. */
  predicate BatchAt(k: int, judged: nat) {
    0 <= k < judged && k % 30 == 0
  }

  /** The decisions of the batch at k stand together, after those of all earlier batches. */
  predicate StandsAt(decisions: seq<Decision>, answers: nat -> Answer, k: nat) {
    var at := LengthBefore(answers, k / 30);
    && answers(k).Judged?
    && at + |answers(k).decisions| <= |decisions|
    && decisions[at..at + |answers(k).decisions|] == answers(k).decisions
  }

  predicate DecidedAt(answers: nat -> Answer, k: int, d: Decision) {
    0 <= k && answers(k).Judged? && d in answers(k).decisions
  }

  lemma BatchStands(n: nat, answers: nat -> Answer, k: nat)
    requires BatchAt(k, JudgedUpTo(n, answers, 0))
    ensures StandsAt(DecisionsFrom(n, answers, 0), answers, k)
  {
    hide DecisionsFrom, JudgedUpTo;
    assert k == 30 * (k / 30);
    DecisionsAt(n, answers, 0, k / 30);
  }

  lemma DecisionHasBatch(n: nat, answers: nat -> Answer, i: nat) returns (k: nat)
    requires i < |DecisionsFrom(n, answers, 0)|
    ensures BatchAt(k, JudgedUpTo(n, answers, 0)) && DecidedAt(answers, k, DecisionsFrom(n, answers, 0)[i])
  {
    hide DecisionsFrom, JudgedUpTo;
    var decisions := DecisionsFrom(n, answers, 0);
    DecisionsFollow(n, answers, 0);
    var b := BatchOf(answers, (JudgedUpTo(n, answers, 0) + 29) / 30, i);
    k := 30 * b;
    BatchStands(n, answers, k);
    var at := LengthBefore(answers, b);
    assert decisions[at..at + |answers(k).decisions|][i - at] == decisions[i];
  }

  lemma StandingCounts(decisions: seq<Decision>, answers: nat -> Answer, k: nat, d: Decision)
    requires StandsAt(decisions, answers, k) && DecidedAt(answers, k, d)
    ensures d in decisions
  {
    var at := LengthBefore(answers, k / 30);
    var j :| 0 <= j < |answers(k).decisions| && answers(k).decisions[j] == d;
    assert decisions[at..at + |answers(k).decisions|][j] == d;
  }

  /**
   * The decisions are those of exactly the batches at 0, 30, 60 and so on below what was judged, batch after batch, each
   * batch's own in its order.
   */
  lemma DecisionsExactly(n: nat, answers: nat -> Answer)
    ensures var judged, decisions := JudgedUpTo(n, answers, 0), DecisionsFrom(n, answers, 0);
            && |decisions| == LengthBefore(answers, (judged + 29) / 30)
            && (forall k: nat :: BatchAt(k, judged) ==> StandsAt(decisions, answers, k))
            && forall d :: d in decisions <==> exists k :: BatchAt(k, judged) && DecidedAt(answers, k, d)
  {
    hide DecisionsFrom, JudgedUpTo, StandsAt, BatchAt, DecidedAt;
    var judged, decisions := JudgedUpTo(n, answers, 0), DecisionsFrom(n, answers, 0);
    DecisionsFollow(n, answers, 0);
    forall k: nat | BatchAt(k, judged)
      ensures StandsAt(decisions, answers, k)
    {
      BatchStands(n, answers, k);
    }
    forall d | d in decisions
      ensures exists k :: BatchAt(k, judged) && DecidedAt(answers, k, d)
    {
      var i :| 0 <= i < |decisions| && decisions[i] == d;
      var k := DecisionHasBatch(n, answers, i);
    }
    forall d, k | BatchAt(k, judged) && DecidedAt(answers, k, d)
      ensures d in decisions
    {
      NotNegative(k, judged);
      StandingCounts(decisions, answers, k, d);
    }
  }

  lemma NotNegative(k: int, judged: nat)
    requires BatchAt(k, judged)
    ensures k >= 0
  {
  }

  /** The batch a position of the decisions falls into. */
  lemma {:induction false} BatchOf(answers: nat -> Answer, batches: nat, i: nat) returns (b: nat)
    requires i < LengthBefore(answers, batches)
    ensures b < batches && LengthBefore(answers, b) <= i < LengthBefore(answers, b + 1)
  {
    if LengthBefore(answers, batches - 1) <= i {
      b := batches - 1;
    } else {
      b := BatchOf(answers, batches - 1, i);
    }
  }

  lemma NoMultipleBetween(offset: nat, judged: nat)
    requires offset % MAX_LLM_PAIRS == 0 && judged <= offset + MAX_LLM_PAIRS
    ensures forall k :: offset < k < judged ==> k % MAX_LLM_PAIRS != 0
  {
  }

  // ---------------------------------------------------------------- targets and survivors

  function Occurrences(decisions: seq<Decision>, pairId: nat): nat {
    if decisions == [] then 0
    else (if decisions[0].pairId == pairId then 1 else 0) + Occurrences(decisions[1..], pairId)
  }

  function ReasonOf(reason: DecisionReason): Reason {
    match reason
    case Duplicate => SemanticDuplicate
    case Conflict => Conflicting
    case Replaced => Superseded
  }

  /** The proposal a decision makes about its pair. */
  function Proposal(d: Decision, p: Pair, processors: seq<Processor>): ArchiveCandidate {
    if d.archive == ArchiveLeft then ArchiveCandidate(p.recent, Some(p.candidate), ReasonOf(d.reason), Some(processors))
    else ArchiveCandidate(p.candidate, Some(p.recent), ReasonOf(d.reason), Some(processors))
  }

  /** A decision counts when it names a selected pair that no other decision names. */
  predicate Usable(d: Decision, all: seq<Decision>, selected: seq<Pair>) {
    d.pairId < |selected| && Occurrences(all, d.pairId) == 1
  }

  predicate Clear(c: ArchiveCandidate, targets: set<nat>, survivors: set<nat>) {
    && c.canonical.Some?
    && c.memory.id != c.canonical.value.id
    && c.memory.id !in targets
    && c.canonical.value.id !in targets
    && c.memory.id !in survivors
  }

  function Picks(rest: seq<Decision>, all: seq<Decision>, selected: seq<Pair>, processors: seq<Processor>,
                 targets: set<nat>, survivors: set<nat>): seq<ArchiveCandidate>
  {
    if rest == [] then []
    else if Usable(rest[0], all, selected) then
      var c := Proposal(rest[0], selected[rest[0].pairId], processors);
      if Clear(c, targets, survivors) then
        [c] + Picks(rest[1..], all, selected, processors, targets + {c.memory.id}, survivors + {c.canonical.value.id})
      else Picks(rest[1..], all, selected, processors, targets, survivors)
    else Picks(rest[1..], all, selected, processors, targets, survivors)
  }

  method CountDecisions(decisions: seq<Decision>) returns (pairCounts: map<nat, nat>)
    ensures forall id: nat :: Occurrences(decisions, id) == if id in pairCounts then pairCounts[id] else 0
  {
    pairCounts := map[];
    for i := 0 to |decisions|
      invariant forall id: nat ::
        Occurrences(decisions[..i], id) == if id in pairCounts then pairCounts[id] else 0
    {
      var id := decisions[i].pairId;
      forall other: nat
        ensures Occurrences(decisions[..i + 1], other) == Occurrences(decisions[..i], other) + (if other == id then 1 else 0)
      {
        OccurrencesSnoc(decisions[..i], decisions[i], other);
        assert decisions[..i + 1] == decisions[..i] + [decisions[i]];
      }
      pairCounts := pairCounts[id := (if id in pairCounts then pairCounts[id] else 0) + 1];
    }
    assert decisions[..|decisions|] == decisions;
  }

  lemma {:induction false} OccurrencesSnoc(decisions: seq<Decision>, d: Decision, id: nat)
    ensures Occurrences(decisions + [d], id) == Occurrences(decisions, id) + (if d.pairId == id then 1 else 0)
  {
    if decisions == [] {
      assert [] + [d] == [d];
    } else {
      assert (decisions + [d])[1..] == decisions[1..] + [d];
      OccurrencesSnoc(decisions[1..], d, id);
    }
  }

  lemma {:induction false} OccursAt(decisions: seq<Decision>, id: nat, i: nat)
    requires i < |decisions| && decisions[i].pairId == id
    ensures Occurrences(decisions, id) >= 1
    ensures Occurrences(decisions, id) == 1 <==> forall j :: 0 <= j < |decisions| && decisions[j].pairId == id ==> j == i
  {
    var rest := decisions[1..];
    assert forall j :: 0 <= j < |rest| ==> rest[j] == decisions[j + 1];
    if i > 0 {
      OccursAt(rest, id, i - 1);
      if decisions[0].pairId != id {
        assert (forall j :: 0 <= j < |rest| && rest[j].pairId == id ==> j == i - 1) <==>
               (forall j :: 0 <= j < |decisions| && decisions[j].pairId == id ==> j == i) by {
          assert forall j :: 0 < j < |decisions| ==> decisions[j] == rest[j - 1];
        }
      }
    } else {
      OccursNowhere(rest, id);
      assert forall j :: 0 < j < |decisions| ==> decisions[j] == rest[j - 1];
    }
  }

  lemma {:induction false} OccursNowhere(decisions: seq<Decision>, id: nat)
    ensures Occurrences(decisions, id) == 0 <==> forall j :: 0 <= j < |decisions| ==> decisions[j].pairId != id
  {
    if decisions != [] {
      OccursNowhere(decisions[1..], id);
      assert forall j :: 0 < j < |decisions| ==> decisions[j] == decisions[1..][j - 1];
      assert forall j :: 0 <= j < |decisions[1..]| ==> decisions[1..][j] == decisions[j + 1];
    }
  }

  /** A decision is used exactly when it names a selected pair and no other decision names the same. */
  lemma UsableIff(all: seq<Decision>, selected: seq<Pair>, i: nat)
    requires i < |all|
    ensures Usable(all[i], all, selected) <==>
              all[i].pairId < |selected| && forall j :: 0 <= j < |all| && all[j].pairId == all[i].pairId ==> j == i
  {
    OccursAt(all, all[i].pairId, i);
  }

  /** The decision loop. */
  method PickCandidates(decisions: seq<Decision>, selected: seq<Pair>, processors: seq<Processor>)
    returns (candidates: seq<ArchiveCandidate>)
    ensures candidates == Picks(decisions, decisions, selected, processors, {}, {})
  {
    hide Occurrences, Proposal;
    var pairCounts := CountDecisions(decisions);
    candidates := [];
    var targets: set<nat>, survivors: set<nat> := {}, {};
    for i := 0 to |decisions|
      invariant Picks(decisions, decisions, selected, processors, {}, {})
             == candidates + Picks(decisions[i..], decisions, selected, processors, targets, survivors)
    {
      var decision := decisions[i];
      assert decisions[i..][0] == decision && decisions[i..][1..] == decisions[i + 1..];
      var index := decision.pairId;
      if index >= |selected| || index !in pairCounts || pairCounts[index] != 1 {
        continue;
      }
      var c := Proposal(decision, selected[index], processors);
      if !Clear(c, targets, survivors) {
        continue;
      }
      targets := targets + {c.memory.id};
      survivors := survivors + {c.canonical.value.id};
      candidates := candidates + [c];
    }
    assert decisions[|decisions|..] == [];
  }

  function Survivors(cs: seq<ArchiveCandidate>): set<nat> {
    set c | c in cs && c.canonical.Some? :: c.canonical.value.id
  }

  /** Targets are pairwise distinct, none of them is a survivor, and each proposal comes from one decision on one pair. */
  predicate PicksOk(cs: seq<ArchiveCandidate>, all: seq<Decision>, selected: seq<Pair>, processors: seq<Processor>) {
    && DistinctTargets(cs)
    && Targets(cs) !! Survivors(cs)
    && forall c :: c in cs ==> c.canonical.Some? && Distinguishes(c) && ComesFromPair(c, all, selected, processors)
  }

  predicate ComesFromPair(c: ArchiveCandidate, all: seq<Decision>, selected: seq<Pair>, processors: seq<Processor>) {
    exists d :: d in all && Usable(d, all, selected) && Follows(c, d, selected[d.pairId], processors)
  }

  /** The proposal archives the side the decision names, for the reason it gives, in favour of the other side. */
  predicate Follows(c: ArchiveCandidate, d: Decision, p: Pair, processors: seq<Processor>) {
    && c.processors == Some(processors) && c.canonical.Some?
    && (d.archive == ArchiveLeft ==> c.memory == p.recent && c.canonical.value == p.candidate)
    && (d.archive == ArchiveRight ==> c.memory == p.candidate && c.canonical.value == p.recent)
    && c.reason !in {Expired, ExactDuplicate}
    && (c.reason == SemanticDuplicate <==> d.reason == Duplicate) && (c.reason == Conflicting <==> d.reason == Conflict)
  }

  lemma ProposalFollows(d: Decision, p: Pair, processors: seq<Processor>)
    ensures Follows(Proposal(d, p, processors), d, p, processors)
  {
  }

  lemma PicksSnoc(cs: seq<ArchiveCandidate>, c: ArchiveCandidate, all: seq<Decision>, selected: seq<Pair>, processors: seq<Processor>)
    requires PicksOk(cs, all, selected, processors) && Clear(c, Targets(cs), Survivors(cs))
    requires ComesFromPair(c, all, selected, processors)
    ensures PicksOk(cs + [c], all, selected, processors)
    ensures Targets(cs + [c]) == Targets(cs) + {c.memory.id}
    ensures Survivors(cs + [c]) == Survivors(cs) + {c.canonical.value.id}
  {
    hide ComesFromPair;
    assert forall x :: x in cs + [c] <==> x in cs || x == c;
    assert forall i :: 0 <= i < |cs| ==> cs[i].memory.id in Targets(cs);
  }

  /** The proposal contradicts itself or one of the list: an equal target, or one's target is the other's survivor. */
  predicate Clashes(c: ArchiveCandidate, cs: seq<ArchiveCandidate>)
    requires c.canonical.Some?
  {
    c.memory.id == c.canonical.value.id ||
    exists other :: other in cs &&
      (other.memory.id == c.memory.id || other.memory.id == c.canonical.value.id ||
       (other.canonical.Some? && other.canonical.value.id == c.memory.id))
  }

  /** What a usable decision proposes is in the list, or clashes with it. */
  predicate Explained(d: Decision, cs: seq<ArchiveCandidate>, all: seq<Decision>, selected: seq<Pair>, processors: seq<Processor>) {
    Usable(d, all, selected) ==> Accounted(d, cs, selected[d.pairId], processors)
  }

  predicate Accounted(d: Decision, cs: seq<ArchiveCandidate>, p: Pair, processors: seq<Processor>) {
    Follows(Proposal(d, p, processors), d, p, processors) &&
    (Proposal(d, p, processors) in cs || Clashes(Proposal(d, p, processors), cs))
  }

  lemma UnclearClashes(c: ArchiveCandidate, prior: seq<ArchiveCandidate>, later: seq<ArchiveCandidate>)
    requires c.canonical.Some? && !Clear(c, Targets(prior), Survivors(prior))
    ensures Clashes(c, prior + later)
  {
    assert forall k :: k in prior ==> k in prior + later;
    if c.memory.id in Targets(prior) {
      var k :| k in prior && k.memory.id == c.memory.id;
    } else if c.canonical.value.id in Targets(prior) {
      var k :| k in prior && k.memory.id == c.canonical.value.id;
    } else if c.memory.id in Survivors(prior) {
      var k :| k in prior && k.canonical.Some? && k.canonical.value.id == c.memory.id;
    }
  }

  lemma {:induction false} PicksSound(prior: seq<ArchiveCandidate>, rest: seq<Decision>, all: seq<Decision>,
                                      selected: seq<Pair>, processors: seq<Processor>)
    requires PicksOk(prior, all, selected, processors) && forall d :: d in rest ==> d in all
    ensures var cs := prior + Picks(rest, all, selected, processors, Targets(prior), Survivors(prior));
            PicksOk(cs, all, selected, processors) &&
            forall d :: d in rest ==> Explained(d, cs, all, selected, processors)
    decreases |rest|
  {
    hide PicksOk, Clear, Clashes, Occurrences, Proposal, Targets, Survivors, Follows;
    if rest == [] {
      assert prior + [] == prior;
    } else {
      var d := rest[0];
      var tail := rest[1..];
      assert rest == [d] + tail && d in all;
      if Usable(d, all, selected) {
        var c := Proposal(d, selected[d.pairId], processors);
        if Clear(c, Targets(prior), Survivors(prior)) {
          ProposalFollows(d, selected[d.pairId], processors);
          assert ComesFromPair(c, all, selected, processors);
          PicksSnoc(prior, c, all, selected, processors);
          PicksSound(prior + [c], tail, all, selected, processors);
          var later := Picks(tail, all, selected, processors, Targets(prior + [c]), Survivors(prior + [c]));
          assert (prior + [c]) + later == prior + ([c] + later);
        } else {
          PicksSound(prior, tail, all, selected, processors);
          ProposalFollows(d, selected[d.pairId], processors);
          UnclearClashes(c, prior, Picks(tail, all, selected, processors, Targets(prior), Survivors(prior)));
        }
      } else {
        PicksSound(prior, tail, all, selected, processors);
      }
    }
  }

  // ---------------------------------------------------------------- the whole judgment

  datatype Status = Completed | Partial | FailedRun | Skipped

  /** The consolidation part of the processing configuration. */
  datatype Task = Task(available: bool, processors: seq<Processor>, maxSensitivity: nat)

  datatype Judgment = Judgment(
    candidates: seq<ArchiveCandidate>,
    status: Status,
    skippedSources: nat,
    skippedPairs: nat,
    deferredPairs: nat,
    completedSourceIds: seq<nat>
  )

  /** Instants at which sources, pairs and completed sources are checked, and the two permission verdicts. */
  datatype Moments = Moments(atStart: int, atPairs: int, atEnd: int, before: Verdict, after: Verdict)

  function SelectedPairs(pairs: seq<Pair>, task: Task, now: int): seq<Pair> {
    Take(EligiblePairs(pairs, task.maxSensitivity, now), MAX_SELECTED)
  }

  predicate Touches(p: Pair, id: nat) {
    p.recent.id == id || p.candidate.id == id
  }

  /** Every pair that touches the memory was selected and judged. */
  predicate Inspected(m: Memory, pairs: seq<Pair>, judgedPairs: seq<Pair>) {
    forall p :: p in pairs && Touches(p, m.id) ==> p in judgedPairs
  }

  function CompletedIds(memories: seq<Memory>, task: Task, now: int, pairs: seq<Pair>, judgedPairs: seq<Pair>): seq<nat> {
    if memories == [] then []
    else
      (if Permitted(memories[0], task.maxSensitivity, now) && Inspected(memories[0], pairs, judgedPairs)
       then [memories[0].id] else [])
      + CompletedIds(memories[1..], task, now, pairs, judgedPairs)
  }

  function ExcludedCount(memories: seq<Memory>, task: Task, now: int): nat {
    if memories == [] then 0
    else (if Permitted(memories[0], task.maxSensitivity, now) then 0 else 1) + ExcludedCount(memories[1..], task, now)
  }

  /** The judgment reached its last step without an exception. */
  predicate Ran(task: Task, pairs: Option<seq<Pair>>, at: Moments) {
    task.available && at.before.Allowed? && pairs.Some? && at.after.Allowed?
  }

  /**
   * `judge`. `pairs` is what discovery found, or None when the query threw; `answers(offset)` is what the
   * provider made of the batch at `offset`.
   */
  method Judge(memories: seq<Memory>, task: Task, pairs: Option<seq<Pair>>, answers: nat -> Answer, at: Moments)
    returns (r: Judgment)
    ensures Ran(task, pairs, at) ==>
              var selected := SelectedPairs(pairs.value, task, at.atPairs);
              var judged := JudgedUpTo(|selected|, answers, 0);
              var decisions := DecisionsFrom(|selected|, answers, 0);
              && r.candidates == Picks(decisions, decisions, selected, task.processors, {}, {})
              && r.completedSourceIds == CompletedIds(memories, task, at.atEnd, pairs.value, selected[..judged])
              && r.skippedSources == ExcludedCount(memories, task, at.atStart)
              && r.skippedPairs == |pairs.value| - |selected|
              && r.deferredPairs == |EligiblePairs(pairs.value, task.maxSensitivity, at.atPairs)| - |selected|
              && r.status == (if judged < |selected| then (if judged > 0 then Partial else FailedRun)
                              else if r.deferredPairs > 0 then Partial else Completed)
    ensures !Ran(task, pairs, at) ==> r.candidates == [] && r.completedSourceIds == [] && (r.status.Skipped? || r.status.FailedRun?)
    ensures r.status.Skipped? <==>
              !task.available || !at.before.Allowed? || (pairs.Some? && !at.after.Allowed?)
  {
    hide Picks, DecisionsFrom, JudgedUpTo, Permitted, Inspected, ExcludedCount, CompletedIds;
    r := Judgment([], Completed, 0, 0, 0, []);
    if !task.available || !at.before.Allowed? {
      return r.(status := Skipped);
    }
    var skippedSources := 0;
    for i := 0 to |memories|
      invariant ExcludedCount(memories, task, at.atStart) == skippedSources + ExcludedCount(memories[i..], task, at.atStart)
    {
      ExcludedNext(memories, i, task, at.atStart);
      if !Permitted(memories[i], task.maxSensitivity, at.atStart) {
        skippedSources := skippedSources + 1;
      }
    }
    NoMemories(memories[|memories|..], task, at.atStart, [], []);
    r := r.(skippedSources := skippedSources);
    if pairs.None? {
      return r.(status := FailedRun);
    }
    var eligible := EligiblePairs(pairs.value, task.maxSensitivity, at.atPairs);
    var selected := Take(eligible, MAX_SELECTED);
    FilterMembers(pairs.value, (p: Pair) =>
      Permitted(p.recent, task.maxSensitivity, at.atPairs) && Permitted(p.candidate, task.maxSensitivity, at.atPairs));
    r := r.(skippedPairs := |pairs.value| - |selected|, deferredPairs := |eligible| - |selected|);
    if r.deferredPairs > 0 {
      r := r.(status := Partial);
    }
    var decisions, judged, stop := RunBatches(|selected|, answers);
    if stop.Some? {
      r := r.(status := if judged > 0 then Partial else FailedRun);
    }
    if !at.after.Allowed? {
      return r.(status := Skipped);
    }
    var candidates := PickCandidates(decisions, selected, task.processors);
    var completed := CompleteSources(memories, task, at.atEnd, pairs.value, selected[..judged]);
    r := r.(candidates := candidates, completedSourceIds := completed);
  }

  method CompleteSources(memories: seq<Memory>, task: Task, now: int, pairs: seq<Pair>, judgedPairs: seq<Pair>)
    returns (ids: seq<nat>)
    ensures ids == CompletedIds(memories, task, now, pairs, judgedPairs)
  {
    hide Permitted, Inspected, CompletedIds;
    ids := [];
    for i := 0 to |memories|
      invariant CompletedIds(memories, task, now, pairs, judgedPairs)
             == ids + CompletedIds(memories[i..], task, now, pairs, judgedPairs)
    {
      CompletedNext(memories, i, task, now, pairs, judgedPairs);
      if Permitted(memories[i], task.maxSensitivity, now) && Inspected(memories[i], pairs, judgedPairs) {
        ids := ids + [memories[i].id];
      }
    }
    NoMemories(memories[|memories|..], task, now, pairs, judgedPairs);
  }

  lemma ExcludedNext(memories: seq<Memory>, i: nat, task: Task, now: int)
    requires i < |memories|
    ensures ExcludedCount(memories[i..], task, now)
         == (if Permitted(memories[i], task.maxSensitivity, now) then 0 else 1) + ExcludedCount(memories[i + 1..], task, now)
  {
    hide Permitted;
    assert memories[i..][1..] == memories[i + 1..];
  }

  lemma CompletedNext(memories: seq<Memory>, i: nat, task: Task, now: int, pairs: seq<Pair>, judgedPairs: seq<Pair>)
    requires i < |memories|
    ensures CompletedIds(memories[i..], task, now, pairs, judgedPairs)
         == (if Permitted(memories[i], task.maxSensitivity, now) && Inspected(memories[i], pairs, judgedPairs)
             then [memories[i].id] else [])
            + CompletedIds(memories[i + 1..], task, now, pairs, judgedPairs)
  {
    hide Permitted, Inspected;
    assert memories[i..][1..] == memories[i + 1..];
  }

  lemma NoMemories(memories: seq<Memory>, task: Task, now: int, pairs: seq<Pair>, judgedPairs: seq<Pair>)
    requires memories == []
    ensures ExcludedCount(memories, task, now) == 0 && CompletedIds(memories, task, now, pairs, judgedPairs) == []
  {
  }

  // ---------------------------------------------------------------- guarantees

  /** Conservation: a bounded prefix of the eligible pairs is selected, a prefix of those is judged. */
  lemma JudgingConserves(pairs: seq<Pair>, task: Task, now: int, answers: nat -> Answer)
    ensures var eligible := EligiblePairs(pairs, task.maxSensitivity, now);
            var selected := SelectedPairs(pairs, task, now);
            && |selected| == (if |eligible| < 1000 then |eligible| else 1000)
            && selected <= eligible
            && |eligible| - |selected| <= |pairs| - |selected|
            && JudgedUpTo(|selected|, answers, 0) <= |selected|
            && (forall p :: p in selected ==>
                  p in pairs && Permitted(p.recent, task.maxSensitivity, now) && Permitted(p.candidate, task.maxSensitivity, now))
  {
    hide Permitted, JudgedUpTo;
    FilterMembers(pairs, (p: Pair) => Permitted(p.recent, task.maxSensitivity, now) && Permitted(p.candidate, task.maxSensitivity, now));
    var eligible := EligiblePairs(pairs, task.maxSensitivity, now);
    assert forall p :: p in SelectedPairs(pairs, task, now) ==> p in eligible;
  }

  /** Targets and survivors stay apart and every usable decision is accounted for, whatever the provider says. */
  lemma ProposalsSound(decisions: seq<Decision>, selected: seq<Pair>, processors: seq<Processor>)
    ensures PicksOk(Picks(decisions, decisions, selected, processors, {}, {}), decisions, selected, processors)
    ensures forall d :: d in decisions ==>
              Explained(d, Picks(decisions, decisions, selected, processors, {}, {}), decisions, selected, processors)
  {
    hide Picks, Explained, Usable, ComesFromPair;
    assert Targets([]) == {} && Survivors([]) == {};
    PicksSound([], decisions, decisions, selected, processors);
    assert [] + Picks(decisions, decisions, selected, processors, {}, {}) == Picks(decisions, decisions, selected, processors, {}, {});
  }

  /** Every pair of the memory, on either side, was judged. */
  predicate AllJudged(id: nat, pairs: seq<Pair>, judgedPairs: seq<Pair>) {
    forall p :: p in pairs && (p.recent.id == id || p.candidate.id == id) ==> p in judgedPairs
  }

  lemma InspectedIff(m: Memory, pairs: seq<Pair>, judgedPairs: seq<Pair>)
    ensures Inspected(m, pairs, judgedPairs) <==> AllJudged(m.id, pairs, judgedPairs)
  {
  }

  /** A source is completed exactly when it may be sent and every pair of it was judged. */
  lemma {:induction false} CompletedExactly(memories: seq<Memory>, task: Task, now: int, pairs: seq<Pair>, judgedPairs: seq<Pair>)
    ensures forall id :: id in CompletedIds(memories, task, now, pairs, judgedPairs) <==>
              exists m :: m in memories && m.id == id && Permitted(m, task.maxSensitivity, now) && AllJudged(m.id, pairs, judgedPairs)
  {
    hide Permitted, Inspected, AllJudged;
    if memories != [] {
      InspectedIff(memories[0], pairs, judgedPairs);
      CompletedExactly(memories[1..], task, now, pairs, judgedPairs);
      assert memories == [memories[0]] + memories[1..];
      assert forall m :: m in memories <==> m == memories[0] || m in memories[1..];
    }
  }

  /** A run reported as completed judged every eligible pair, and then a permitted source is complete unless one of its pairs was excluded. */
  lemma CompletedMeansAllJudged(pairs: seq<Pair>, task: Task, now: int, answers: nat -> Answer)
    requires var selected := SelectedPairs(pairs, task, now);
             JudgedUpTo(|selected|, answers, 0) == |selected| && |EligiblePairs(pairs, task.maxSensitivity, now)| == |selected|
    ensures var selected := SelectedPairs(pairs, task, now);
            selected[..JudgedUpTo(|selected|, answers, 0)] == EligiblePairs(pairs, task.maxSensitivity, now)
    ensures var judgedPairs := SelectedPairs(pairs, task, now)[..JudgedUpTo(|SelectedPairs(pairs, task, now)|, answers, 0)];
            forall m :: Inspected(m, pairs, judgedPairs) <==>
              forall p :: p in pairs && Touches(p, m.id) ==>
                Permitted(p.recent, task.maxSensitivity, now) && Permitted(p.candidate, task.maxSensitivity, now)
  {
    hide Permitted, JudgedUpTo;
    FilterMembers(pairs, (p: Pair) => Permitted(p.recent, task.maxSensitivity, now) && Permitted(p.candidate, task.maxSensitivity, now));
  }

  /** The sources reported as skipped are those that may not be sent. */
  lemma {:induction false} ExcludedExactly(memories: seq<Memory>, task: Task, now: int)
    ensures ExcludedCount(memories, task, now) == |Filter(memories, (m: Memory) => ExclusionReason(m, task.maxSensitivity, now).Some?)|
  {
    hide ExclusionReason;
    if memories != [] {
      ExcludedExactly(memories[1..], task, now);
    }
  }

  /** Of all batches that were answered, every decision that names a selected pair alone is proposed, or clashes with a proposal. */
  lemma JudgedDecisionsCount(selected: seq<Pair>, processors: seq<Processor>, answers: nat -> Answer, k: nat, d: Decision)
    requires BatchAt(k, JudgedUpTo(|selected|, answers, 0)) && DecidedAt(answers, k, d)
    ensures var decisions := DecisionsFrom(|selected|, answers, 0);
            Explained(d, Picks(decisions, decisions, selected, processors, {}, {}), decisions, selected, processors)
  {
    hide Explained, Picks, DecisionsFrom, JudgedUpTo;
    DecisionsExactly(|selected|, answers);
    ProposalsSound(DecisionsFrom(|selected|, answers, 0), selected, processors);
  }
}
