/** Token-budgeted disclosure bundles: apps/api/src/memory-requests/bundle-compiler.service.ts. */
module Bundles {
  import opened Common

  datatype Candidate = Candidate(
    id: nat,
    title: string,
    body: string,
    sensitivity: nat,
    categories: seq<nat>,
    relevanceScore: real
  )

  datatype Item = Item(
    memoryId: nat,
    text: string,
    category: Option<nat>,
    sensitivity: nat,
    relevanceScore: real,
    estimatedTokens: nat
  )

  /** A quarter of the characters, rounded up, and never zero. */
  function EstimateTokens(text: string): (n: nat)
    ensures n >= 1 && |text| <= 4 * n && (n > 1 ==> 4 * (n - 1) < |text|)
  {
    if |text| == 0 then 1 else (|text| + 3) / 4
  }

  /** The white space that JavaScript's trimEnd removes. */
  predicate IsSpace(c: char) {
    '\t' <= c <= '\r' || c == ' ' || c == '\U{00A0}' || c == '\U{FEFF}' || c == '\U{1680}' ||
    '\U{2000}' <= c <= '\U{200A}' || c == '\U{2028}' || c == '\U{2029}' || c == '\U{202F}' ||
    c == '\U{205F}' || c == '\U{3000}'
  }

  function TrimEnd(s: string): (t: string)
    ensures t <= s
    ensures t != [] ==> !IsSpace(t[|t| - 1])
    ensures forall i :: |t| <= i < |s| ==> IsSpace(s[i])
  {
    if s != [] && IsSpace(s[|s| - 1]) then TrimEnd(s[..|s| - 1]) else s
  }

  function Max(a: int, b: int): int {
    if a >= b then a else b
  }

  function Clip(text: string, tokenBudget: int): (t: string)
    ensures t <= text
    ensures |t| <= Max(1, 4 * tokenBudget)
    ensures |text| <= Max(1, 4 * tokenBudget) ==> t == text
    ensures forall i :: |t| <= i < |text| && i < Max(1, Max(1, 4 * tokenBudget) - 1) ==> IsSpace(text[i])
    ensures t != text && t != "" ==> !IsSpace(t[|t| - 1])
  {
    var maxCharacters := Max(1, tokenBudget * 4);
    if |text| <= maxCharacters then text else TrimEnd(text[..Max(1, maxCharacters - 1)])
  }

  function FormatMemory(c: Candidate): string {
    c.title + ": " + c.body
  }

  /** `Math.round(score * 1000) / 1000`; Math.round rounds halves up. */
  function RoundScore(score: real): (rounded: real)
    ensures score - 0.0005 < rounded <= score + 0.0005
  {
    (score * 1000.0 + 0.5).Floor as real / 1000.0
  }

  /** The exact text a memory contributes under a budget, clipped only when it cannot fit alone. */
  function ItemText(c: Candidate, tokenBudget: int): string {
    var text := FormatMemory(c);
    if EstimateTokens(text) > tokenBudget then Clip(text, tokenBudget) else text
  }

  function ItemOf(c: Candidate, tokenBudget: int): Item {
    var text := ItemText(c, tokenBudget);
    Item(c.id, text, if c.categories == [] then None else Some(c.categories[0]), c.sensitivity,
         RoundScore(c.relevanceScore), EstimateTokens(text))
  }

  /** First-fit selection with `used` tokens spent; `some` says whether an item was already taken. */
  function Pack(cs: seq<Candidate>, used: nat, some: bool, tokenBudget: int): seq<Candidate> {
    if cs == [] then []
    else if some && used + EstimateTokens(FormatMemory(cs[0])) > tokenBudget then
      Pack(cs[1..], used, some, tokenBudget)
    else
      [cs[0]] + Pack(cs[1..], used + ItemOf(cs[0], tokenBudget).estimatedTokens, true, tokenBudget)
  }

  /** The candidates Pack passes over. */
  function Skipped(cs: seq<Candidate>, used: nat, some: bool, tokenBudget: int): seq<Candidate> {
    if cs == [] then []
    else if some && used + EstimateTokens(FormatMemory(cs[0])) > tokenBudget then
      [cs[0]] + Skipped(cs[1..], used, some, tokenBudget)
    else
      Skipped(cs[1..], used + ItemOf(cs[0], tokenBudget).estimatedTokens, true, tokenBudget)
  }

  function Items(cs: seq<Candidate>, tokenBudget: int): (items: seq<Item>)
    ensures |items| == |cs|
    ensures forall i :: 0 <= i < |cs| ==> items[i] == ItemOf(cs[i], tokenBudget)
  {
    if cs == [] then [] else [ItemOf(cs[0], tokenBudget)] + Items(cs[1..], tokenBudget)
  }

  /** What `compile` returns for a candidate list. */
  function Compiled(cs: seq<Candidate>, tokenBudget: int): seq<Item> {
    Items(Pack(cs, 0, false, tokenBudget), tokenBudget)
  }

  function Total(items: seq<Item>): nat {
    if items == [] then 0 else items[0].estimatedTokens + Total(items[1..])
  }

  lemma {:induction false} TotalAppend(xs: seq<Item>, ys: seq<Item>)
    ensures Total(xs + ys) == Total(xs) + Total(ys)
  {
    if xs == [] {
      assert [] + ys == ys;
    } else {
      assert (xs + ys)[1..] == xs[1..] + ys;
      TotalAppend(xs[1..], ys);
    }
  }

  lemma {:induction false} ItemsSnoc(cs: seq<Candidate>, c: Candidate, tokenBudget: int)
    ensures Items(cs + [c], tokenBudget) == Items(cs, tokenBudget) + [ItemOf(c, tokenBudget)]
  {
  }

  /** The total is the one additive measure that counts each item's own tokens. */
  lemma TotalIsSum(xs: seq<Item>, ys: seq<Item>, item: Item)
    ensures Total([]) == 0 && Total([item]) == item.estimatedTokens
    ensures Total(xs + ys) == Total(xs) + Total(ys)
  {
    TotalAppend(xs, ys);
    assert [item][1..] == [];
  }

  /** What is disclosed of a candidate: title and body in full when they fit the budget, otherwise a prefix, with its own attributes. */
  lemma ItemShows(c: Candidate, budget: int)
    ensures var item, full := ItemOf(c, budget), c.title + ": " + c.body;
            && item.memoryId == c.id && item.sensitivity == c.sensitivity
            && item.category == (if c.categories == [] then None else Some(c.categories[0]))
            && item.text <= full
            && (|full| <= 4 * budget ==> item.text == full)
            && |item.text| <= Max(1, 4 * budget)
            && c.relevanceScore - 0.0005 < item.relevanceScore <= c.relevanceScore + 0.0005
            && item.relevanceScore * 1000.0 == (item.relevanceScore * 1000.0).Floor as real
            && item.estimatedTokens >= 1 && |item.text| <= 4 * item.estimatedTokens
            && (item.estimatedTokens > 1 ==> 4 * (item.estimatedTokens - 1) < |item.text|)
  {
    hide EstimateTokens, Clip, RoundScore;
    InThousandths(c.relevanceScore);
  }

  lemma InThousandths(score: real)
    ensures RoundScore(score) * 1000.0 == (RoundScore(score) * 1000.0).Floor as real
  {
    assert RoundScore(score) * 1000.0 == (score * 1000.0 + 0.5).Floor as real;
  }

  method Compile(candidates: seq<Candidate>, tokenBudget: int) returns (items: seq<Item>, estimatedTokens: nat)
    ensures items == Compiled(candidates, tokenBudget)
    ensures estimatedTokens == Total(items)
  {
    hide Pack, Items, Total, Progress, Compiled, EstimateTokens, FormatMemory, RoundScore, Clip;
    items, estimatedTokens := [], 0;
    ghost var taken: seq<Candidate> := [];
    NothingPacked(candidates, tokenBudget);
    for i := 0 to |candidates|
      invariant Progress(candidates, i, taken, items, estimatedTokens, tokenBudget)
    {
      var candidate := candidates[i];
      var text := FormatMemory(candidate);
      var itemTokens := EstimateTokens(text);
      if |items| > 0 && estimatedTokens + itemTokens > tokenBudget {
        SkipOne(candidates, i, taken, items, estimatedTokens, tokenBudget);
        continue;
      }
      TakeOne(candidates, i, taken, items, estimatedTokens, tokenBudget);
      if itemTokens > tokenBudget {
        text := Clip(text, tokenBudget);
        itemTokens := EstimateTokens(text);
      }
      var item := Item(candidate.id, text, if candidate.categories == [] then None else Some(candidate.categories[0]),
                       candidate.sensitivity, RoundScore(candidate.relevanceScore), itemTokens);
      items := items + [item];
      estimatedTokens := estimatedTokens + itemTokens;
      taken := taken + [candidate];
    }
    AllPacked(candidates, taken, items, estimatedTokens, tokenBudget);
  }

  lemma NothingPacked(cs: seq<Candidate>, budget: int)
    ensures Progress(cs, 0, [], [], 0, budget)
  {
  }

  lemma AllPacked(cs: seq<Candidate>, taken: seq<Candidate>, items: seq<Item>, used: nat, budget: int)
    requires Progress(cs, |cs|, taken, items, used, budget)
    ensures items == Compiled(cs, budget) && used == Total(items)
  {
  }

  /** After i candidates: what was taken, its items and tokens, and what Pack still does with the rest. */
  ghost predicate Progress(cs: seq<Candidate>, i: nat, taken: seq<Candidate>, items: seq<Item>, used: nat, budget: int)
    requires i <= |cs|
  {
    && items == Items(taken, budget)
    && used == Total(items)
    && Pack(cs, 0, false, budget) == taken + Pack(cs[i..], used, items != [], budget)
  }

  lemma SkipOne(cs: seq<Candidate>, i: nat, taken: seq<Candidate>, items: seq<Item>, used: nat, budget: int)
    requires i < |cs| && Progress(cs, i, taken, items, used, budget)
    requires items != [] && used + EstimateTokens(FormatMemory(cs[i])) > budget
    ensures Progress(cs, i + 1, taken, items, used, budget)
  {
  }

  lemma TakeOne(cs: seq<Candidate>, i: nat, taken: seq<Candidate>, items: seq<Item>, used: nat, budget: int)
    requires i < |cs| && Progress(cs, i, taken, items, used, budget)
    requires items == [] || used + EstimateTokens(FormatMemory(cs[i])) <= budget
    ensures Progress(cs, i + 1, taken + [cs[i]], items + [ItemOf(cs[i], budget)],
                     used + ItemOf(cs[i], budget).estimatedTokens, budget)
  {
    hide ItemOf, EstimateTokens, FormatMemory;
    var rest := cs[i..];
    assert rest[1..] == cs[i + 1..];
    ItemsSnoc(taken, cs[i], budget);
    TotalAppend(items, [ItemOf(cs[i], budget)]);
    PackTakes(rest, used, items != [], budget);
    var more := Pack(rest[1..], used + ItemOf(cs[i], budget).estimatedTokens, true, budget);
    assert taken + ([cs[i]] + more) == (taken + [cs[i]]) + more;
  }

  lemma PackTakes(cs: seq<Candidate>, used: nat, some: bool, tokenBudget: int)
    requires cs != [] && !(some && used + EstimateTokens(FormatMemory(cs[0])) > tokenBudget)
    ensures Pack(cs, used, some, tokenBudget)
         == [cs[0]] + Pack(cs[1..], used + ItemOf(cs[0], tokenBudget).estimatedTokens, true, tokenBudget)
  {
  }

  // ---------------------------------------------------------------- guarantees

  /** xs appears in ys in the same order. */
  predicate Subsequence<T(==)>(xs: seq<T>, ys: seq<T>)
    decreases |ys|
  {
    xs == [] || (ys != [] && ((xs[0] == ys[0] && Subsequence(xs[1..], ys[1..])) || Subsequence(xs, ys[1..])))
  }

  /** Tokens the items of cs use together. */
  function Cost(cs: seq<Candidate>, budget: int): nat {
    if cs == [] then 0 else ItemOf(cs[0], budget).estimatedTokens + Cost(cs[1..], budget)
  }

  lemma {:induction false} CostIsTotal(cs: seq<Candidate>, budget: int)
    ensures Total(Items(cs, budget)) == Cost(cs, budget)
  {
    if cs != [] {
      CostIsTotal(cs[1..], budget);
      assert Items(cs, budget)[1..] == Items(cs[1..], budget);
    }
  }

  /** Clipping leaves the tokens of a single item within a positive budget. */
  lemma ItemFits(c: Candidate, budget: int)
    requires budget >= 1
    ensures ItemOf(c, budget).estimatedTokens <= budget
    ensures ItemText(c, budget) <= FormatMemory(c)
  {
  }

  lemma {:induction false} PackInOrder(cs: seq<Candidate>, used: nat, some: bool, budget: int)
    ensures Subsequence(Pack(cs, used, some, budget), cs)
  {
    if cs != [] {
      if some && used + EstimateTokens(FormatMemory(cs[0])) > budget {
        PackInOrder(cs[1..], used, some, budget);
      } else {
        var rest := Pack(cs[1..], used + ItemOf(cs[0], budget).estimatedTokens, true, budget);
        PackInOrder(cs[1..], used + ItemOf(cs[0], budget).estimatedTokens, true, budget);
        SubsequenceCons(cs[0], rest, cs);
      }
    }
  }

  lemma SubsequenceCons<T>(x: T, xs: seq<T>, ys: seq<T>)
    requires ys != [] && ys[0] == x && Subsequence(xs, ys[1..])
    ensures Subsequence([x] + xs, ys)
  {
  }

  lemma {:induction false} PackSplits(cs: seq<Candidate>, used: nat, some: bool, budget: int)
    ensures multiset(cs) == multiset(Pack(cs, used, some, budget)) + multiset(Skipped(cs, used, some, budget))
  {
    hide ItemOf, EstimateTokens, FormatMemory;
    if cs != [] {
      assert cs == [cs[0]] + cs[1..];
      MultisetCons(cs[0], cs[1..]);
      if some && used + EstimateTokens(FormatMemory(cs[0])) > budget {
        PackSplits(cs[1..], used, some, budget);
        MultisetCons(cs[0], Skipped(cs[1..], used, some, budget));
      } else {
        var more := used + ItemOf(cs[0], budget).estimatedTokens;
        PackSplits(cs[1..], more, true, budget);
        MultisetCons(cs[0], Pack(cs[1..], more, true, budget));
      }
    }
  }

  /** What Pack takes never leaves a positive budget. */
  lemma TakenFits(c: Candidate, used: nat, some: bool, budget: int)
    requires budget >= 1 && (!some ==> used == 0)
    requires !(some && used + EstimateTokens(FormatMemory(c)) > budget)
    ensures used + ItemOf(c, budget).estimatedTokens <= budget
  {
    ItemFits(c, budget);
  }

  /** With `used` tokens spent, Pack stays in the budget and passes over only what cannot fit even at the end. */
  lemma {:induction false} PackFits(cs: seq<Candidate>, used: nat, some: bool, budget: int)
    requires budget >= 1 && used <= budget && (!some ==> used == 0)
    ensures used + Cost(Pack(cs, used, some, budget), budget) <= budget
    ensures forall c :: c in Skipped(cs, used, some, budget) ==>
              used + Cost(Pack(cs, used, some, budget), budget) + EstimateTokens(FormatMemory(c)) > budget
  {
    hide ItemOf, EstimateTokens, FormatMemory;
    if cs != [] {
      if some && used + EstimateTokens(FormatMemory(cs[0])) > budget {
        PackFits(cs[1..], used, some, budget);
      } else {
        var more := used + ItemOf(cs[0], budget).estimatedTokens;
        TakenFits(cs[0], used, some, budget);
        PackFits(cs[1..], more, true, budget);
        CostCons(cs[0], Pack(cs[1..], more, true, budget), budget);
      }
    }
  }

  lemma CostCons(c: Candidate, rest: seq<Candidate>, budget: int)
    ensures Cost([c] + rest, budget) == ItemOf(c, budget).estimatedTokens + Cost(rest, budget)
  {
    hide ItemOf;
    assert ([c] + rest)[1..] == rest;
  }

  lemma InFull(c: Candidate, budget: int)
    requires EstimateTokens(FormatMemory(c)) <= budget
    ensures ItemText(c, budget) == FormatMemory(c)
  {
  }

  /** Once an item is in, every later item is there in full. */
  lemma {:induction false} PackUnclipped(cs: seq<Candidate>, used: nat, budget: int)
    ensures forall c :: c in Pack(cs, used, true, budget) ==> ItemText(c, budget) == FormatMemory(c)
  {
    if cs != [] {
      if used + EstimateTokens(FormatMemory(cs[0])) > budget {
        PackUnclipped(cs[1..], used, budget);
      } else {
        InFull(cs[0], budget);
        PackUnclipped(cs[1..], used + ItemOf(cs[0], budget).estimatedTokens, budget);
      }
    }
  }

  /**
   * The bundle guarantee for every positive budget: the first candidate is always in, the picks are
   * an order-preserving subsequence, the total is within the budget, only the first item can be
   * clipped (to a prefix), and no skipped candidate fits in what is left at the end.
   */
  lemma BundleGuarantee(cs: seq<Candidate>, budget: int)
    requires budget >= 1
    ensures cs != [] ==> Compiled(cs, budget) != [] && Compiled(cs, budget)[0] == ItemOf(cs[0], budget)
    ensures Subsequence(Pack(cs, 0, false, budget), cs)
    ensures multiset(cs) == multiset(Pack(cs, 0, false, budget)) + multiset(Skipped(cs, 0, false, budget))
    ensures Total(Compiled(cs, budget)) <= budget
    ensures forall i :: 1 <= i < |Compiled(cs, budget)| ==>
              Compiled(cs, budget)[i].text == FormatMemory(Pack(cs, 0, false, budget)[i])
    ensures cs != [] ==> Compiled(cs, budget)[0].text <= FormatMemory(cs[0])
    ensures forall c :: c in Skipped(cs, 0, false, budget) ==>
              Total(Compiled(cs, budget)) + EstimateTokens(FormatMemory(c)) > budget
  {
    PackInOrder(cs, 0, false, budget);
    PackSplits(cs, 0, false, budget);
    PackFits(cs, 0, false, budget);
    CostIsTotal(Pack(cs, 0, false, budget), budget);
    if cs != [] {
      ItemFits(cs[0], budget);
      PackTakes(cs, 0, false, budget);
      PackUnclipped(cs[1..], ItemOf(cs[0], budget).estimatedTokens, budget);
    }
  }

  /** A non-empty bundle respects its budget exactly when the budget is positive. */
  lemma BudgetRespectedIff(cs: seq<Candidate>, budget: int)
    requires cs != []
    ensures Total(Compiled(cs, budget)) <= budget <==> budget >= 1
  {
    if budget >= 1 {
      BundleGuarantee(cs, budget);
    } else {
      assert Compiled(cs, budget)[0].estimatedTokens >= 1;
    }
  }

  lemma {:induction false} FilterTotal(items: seq<Item>, p: Item -> bool)
    ensures Total(Filter(items, p)) <= Total(items)
  {
    if items != [] {
      FilterTotal(items[1..], p);
      TotalAppend(if p(items[0]) then [items[0]] else [], Filter(items[1..], p));
    }
  }

  /** Whatever subset of a bundle the owner selects, it still fits the budget. */
  lemma SelectionRespectsBudget(cs: seq<Candidate>, budget: int, p: Item -> bool)
    requires budget >= 1
    ensures Total(Filter(Compiled(cs, budget), p)) <= budget
  {
    BundleGuarantee(cs, budget);
    FilterTotal(Compiled(cs, budget), p);
  }

  function CandidateId(c: Candidate): nat { c.id }

  function ItemMemory(item: Item): nat { item.memoryId }

  predicate DistinctIds(cs: seq<Candidate>) {
    DistinctBy(cs, CandidateId)
  }

  lemma {:induction false} PackMembers(cs: seq<Candidate>, used: nat, some: bool, budget: int)
    ensures forall c :: c in Pack(cs, used, some, budget) ==> c in cs
    ensures DistinctIds(cs) ==> DistinctIds(Pack(cs, used, some, budget))
  {
    hide DistinctBy, ItemOf, EstimateTokens, FormatMemory;
    if cs != [] {
      if DistinctIds(cs) {
        DistinctTail(cs, CandidateId);
      }
      if some && used + EstimateTokens(FormatMemory(cs[0])) > budget {
        PackMembers(cs[1..], used, some, budget);
      } else {
        PackTakes(cs, used, some, budget);
        var rest := Pack(cs[1..], used + ItemOf(cs[0], budget).estimatedTokens, true, budget);
        PackMembers(cs[1..], used + ItemOf(cs[0], budget).estimatedTokens, true, budget);
        if DistinctIds(cs) {
          DistinctCons(cs[0], rest, CandidateId);
        }
      }
    }
  }

  /** Each compiled item is exactly one of the candidates under its compiled text. */
  lemma CompiledFrom(cs: seq<Candidate>, budget: int)
    ensures forall item :: item in Compiled(cs, budget) ==> exists c :: c in cs && item == ItemOf(c, budget)
    ensures DistinctIds(cs) ==> DistinctBy(Compiled(cs, budget), ItemMemory)
  {
    PackMembers(cs, 0, false, budget);
    var picked := Pack(cs, 0, false, budget);
    forall item | item in Compiled(cs, budget)
      ensures exists c :: c in cs && item == ItemOf(c, budget)
    {
      var i :| 0 <= i < |picked| && Compiled(cs, budget)[i] == item;
      assert picked[i] in cs;
    }
  }
}
