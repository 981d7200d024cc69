/** Small value types and sequence facts shared by every component model. */
module Common {

  /** An absent column or an absent optional field is None. */
  datatype Option<+T> = None | Some(value: T)

  predicate Distinct<T(==)>(xs: seq<T>) {
    forall i, j :: 0 <= i < j < |xs| ==> xs[i] != xs[j]
  }

  /** A nullable deadline that has not passed: `expiresAt IS NULL OR expiresAt > now`. */
  predicate Unexpired(expiresAt: Option<int>, now: int) {
    expiresAt.None? || expiresAt.value > now
  }

  /** Elements of xs that satisfy p, in order. */
  function Filter<T>(xs: seq<T>, p: T -> bool): seq<T> {
    if xs == [] then []
    else (if p(xs[0]) then [xs[0]] else []) + Filter(xs[1..], p)
  }

  lemma {:induction false} FilterMembers<T(!new)>(xs: seq<T>, p: T -> bool)
    ensures forall x :: x in Filter(xs, p) <==> x in xs && p(x)
    ensures |Filter(xs, p)| <= |xs|
  {
    if xs != [] {
      FilterMembers(xs[1..], p);
      assert xs == [xs[0]] + xs[1..];
    }
  }

  lemma Associates<T(!new)>(xs: seq<T>, ys: seq<T>, zs: seq<T>)
    ensures xs + (ys + zs) == xs + ys + zs
  {
  }

  lemma MultisetCons<T(!new)>(x: T, xs: seq<T>)
    ensures multiset([x] + xs) == multiset{x} + multiset(xs)
  {
  }

  lemma {:induction false} FilterAppend<T(!new)>(xs: seq<T>, ys: seq<T>, p: T -> bool)
    ensures Filter(xs + ys, p) == Filter(xs, p) + Filter(ys, p)
  {
    if xs == [] {
      assert [] + ys == ys;
    } else {
      assert (xs + ys)[1..] == xs[1..] + ys;
      FilterAppend(xs[1..], ys, p);
      Associates(if p(xs[0]) then [xs[0]] else [], Filter(xs[1..], p), Filter(ys, p));
    }
  }

  lemma {:induction false} FilterDistinct<T(!new)>(xs: seq<T>, p: T -> bool)
    requires Distinct(xs)
    ensures Distinct(Filter(xs, p))
  {
    if xs != [] {
      assert Distinct(xs[1..]);
      FilterDistinct(xs[1..], p);
      FilterMembers(xs[1..], p);
      assert forall i :: 0 <= i < |xs[1..]| ==> xs[1..][i] == xs[i + 1];
      assert xs[0] !in xs[1..];
    }
  }

  /** A filter keeps everything exactly when it keeps the length, exactly when every element passes. */
  lemma {:induction false} FilterAll<T(!new)>(xs: seq<T>, p: T -> bool)
    ensures |Filter(xs, p)| <= |xs|
    ensures |Filter(xs, p)| == |xs| <==> Filter(xs, p) == xs
    ensures (forall x :: x in xs ==> p(x)) <==> Filter(xs, p) == xs
  {
    FilterMembers(xs, p);
    if xs != [] {
      FilterAll(xs[1..], p);
      assert xs == [xs[0]] + xs[1..];
    }
  }

  /** `[...new Set(xs)]`: first occurrences in order. */
  function Unique<T(==)>(xs: seq<T>): seq<T> {
    if xs == [] then []
    else
      var init := Unique(xs[..|xs| - 1]);
      if xs[|xs| - 1] in init then init else init + [xs[|xs| - 1]]
  }

  lemma {:induction false} UniqueExactly<T(!new)>(xs: seq<T>)
    ensures Distinct(Unique(xs))
    ensures forall x :: x in Unique(xs) <==> x in xs
  {
    if xs != [] {
      var n := |xs| - 1;
      UniqueExactly(xs[..n]);
      assert xs == xs[..n] + [xs[n]];
    }
  }

  function Elements<T>(xs: seq<T>): set<T> {
    set x | x in xs
  }

  /** A sequence has as many elements as positions exactly when it repeats none. */
  lemma {:induction false} DistinctIffCardinality<T(!new)>(xs: seq<T>)
    ensures |Elements(xs)| <= |xs|
    ensures |Elements(xs)| == |xs| <==> Distinct(xs)
  {
    if xs != [] {
      var n := |xs| - 1;
      DistinctIffCardinality(xs[..n]);
      assert xs == xs[..n] + [xs[n]];
      if xs[n] in xs[..n] {
        assert Elements(xs) == Elements(xs[..n]);
        var i :| 0 <= i < n && xs[..n][i] == xs[n];
        assert xs[i] == xs[n];
      } else {
        assert Elements(xs) == Elements(xs[..n]) + {xs[n]};
        assert Distinct(xs[..n]) ==> Distinct(xs);
        assert Distinct(xs) ==> Distinct(xs[..n]);
      }
    }
  }

  predicate DistinctBy<T, K(==)>(xs: seq<T>, id: T -> K) {
    forall i, j :: 0 <= i < j < |xs| ==> id(xs[i]) != id(xs[j])
  }

  predicate Descending<T>(xs: seq<T>, key: T -> real) {
    forall i, j :: 0 <= i < j < |xs| ==> key(xs[i]) >= key(xs[j])
  }

  /** Insert before the first element that is not larger. */
  function Insert<T>(x: T, sorted: seq<T>, key: T -> real): (r: seq<T>)
    ensures |r| == |sorted| + 1
  {
    if sorted == [] || key(sorted[0]) <= key(x) then [x] + sorted
    else [sorted[0]] + Insert(x, sorted[1..], key)
  }

  /** Stable sort, largest key first. */
  function Sort<T>(xs: seq<T>, key: T -> real): (r: seq<T>)
    ensures |r| == |xs|
  {
    if xs == [] then [] else Insert(xs[0], Sort(xs[1..], key), key)
  }

  lemma {:induction false} InsertMembers<T(!new)>(x: T, sorted: seq<T>, key: T -> real)
    ensures forall y :: y in Insert(x, sorted, key) <==> y == x || y in sorted
  {
    if sorted != [] && key(sorted[0]) > key(x) {
      InsertMembers(x, sorted[1..], key);
      assert sorted == [sorted[0]] + sorted[1..];
    }
  }

  lemma DistinctTail<T(!new), K>(xs: seq<T>, id: T -> K)
    requires xs != [] && DistinctBy(xs, id)
    ensures DistinctBy(xs[1..], id)
    ensures forall y :: y in xs[1..] ==> id(y) != id(xs[0])
  {
  }

  lemma DistinctCons<T(!new), K>(x: T, rest: seq<T>, id: T -> K)
    requires DistinctBy(rest, id) && forall y :: y in rest ==> id(y) != id(x)
    ensures DistinctBy([x] + rest, id)
  {
  }

  lemma DescendingCons<T(!new)>(x: T, rest: seq<T>, key: T -> real)
    requires Descending(rest, key) && forall y :: y in rest ==> key(x) >= key(y)
    ensures Descending([x] + rest, key)
  {
  }

  lemma DescendingTail<T(!new)>(xs: seq<T>, key: T -> real)
    requires xs != [] && Descending(xs, key)
    ensures Descending(xs[1..], key)
    ensures forall y :: y in xs ==> key(xs[0]) >= key(y)
  {
  }

  lemma {:induction false} InsertDescends<T(!new)>(x: T, sorted: seq<T>, key: T -> real)
    requires Descending(sorted, key)
    ensures Descending(Insert(x, sorted, key), key)
  {
    if sorted != [] {
      DescendingTail(sorted, key);
    }
    if sorted == [] || key(sorted[0]) <= key(x) {
      DescendingCons(x, sorted, key);
    } else {
      InsertDescends(x, sorted[1..], key);
      InsertMembers(x, sorted[1..], key);
      forall y | y in Insert(x, sorted[1..], key)
        ensures key(sorted[0]) >= key(y)
      {
        assert y == x || y in sorted;
      }
      DescendingCons(sorted[0], Insert(x, sorted[1..], key), key);
    }
  }

  lemma {:induction false} InsertDistinct<T(!new), K>(x: T, sorted: seq<T>, key: T -> real, id: T -> K)
    requires DistinctBy(sorted, id) && forall y :: y in sorted ==> id(y) != id(x)
    ensures DistinctBy(Insert(x, sorted, key), id)
  {
    if sorted == [] || key(sorted[0]) <= key(x) {
      DistinctCons(x, sorted, id);
    } else {
      DistinctTail(sorted, id);
      InsertDistinct(x, sorted[1..], key, id);
      InsertMembers(x, sorted[1..], key);
      forall y | y in Insert(x, sorted[1..], key)
        ensures id(y) != id(sorted[0])
      {
        assert sorted[0] in sorted;
      }
      DistinctCons(sorted[0], Insert(x, sorted[1..], key), id);
    }
  }

  lemma {:induction false} SortSorts<T(!new)>(xs: seq<T>, key: T -> real)
    ensures Descending(Sort(xs, key), key)
    ensures forall y :: y in Sort(xs, key) <==> y in xs
  {
    if xs != [] {
      SortSorts(xs[1..], key);
      InsertDescends(xs[0], Sort(xs[1..], key), key);
      InsertMembers(xs[0], Sort(xs[1..], key), key);
      assert xs == [xs[0]] + xs[1..];
    }
  }

  lemma {:induction false} SortDistinct<T(!new), K>(xs: seq<T>, key: T -> real, id: T -> K)
    requires DistinctBy(xs, id)
    ensures DistinctBy(Sort(xs, key), id)
  {
    if xs != [] {
      DistinctTail(xs, id);
      SortDistinct(xs[1..], key, id);
      SortSorts(xs[1..], key);
      forall y | y in Sort(xs[1..], key)
        ensures id(y) != id(xs[0])
      {
        assert y in xs[1..];
      }
      InsertDistinct(xs[0], Sort(xs[1..], key), key, id);
    }
  }

  lemma {:induction false} FilterDistinctBy<T(!new), K>(xs: seq<T>, p: T -> bool, id: T -> K)
    requires DistinctBy(xs, id)
    ensures DistinctBy(Filter(xs, p), id)
  {
    if xs != [] {
      DistinctTail(xs, id);
      FilterDistinctBy(xs[1..], p, id);
      FilterMembers(xs[1..], p);
      if p(xs[0]) {
        forall y | y in Filter(xs[1..], p)
          ensures id(y) != id(xs[0])
        {
          assert y in xs[1..];
        }
        DistinctCons(xs[0], Filter(xs[1..], p), id);
      } else {
        assert Filter(xs, p) == Filter(xs[1..], p);
      }
    }
  }

  /** A duplicate-free sequence drawn from a finite set is no longer than the set. */
  lemma {:induction false} Pigeonhole<T(!new)>(xs: seq<T>, s: set<T>)
    requires Distinct(xs) && forall x :: x in xs ==> x in s
    ensures |xs| <= |s|
  {
    if xs != [] {
      var last := xs[|xs| - 1];
      var rest := xs[..|xs| - 1];
      forall x | x in rest
        ensures x in s - {last}
      {
        var i :| 0 <= i < |rest| && rest[i] == x;
        assert xs[i] != last;
      }
      Pigeonhole(rest, s - {last});
    }
  }
}
