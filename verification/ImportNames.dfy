/** Fresh names for imported clients: `uniqueImportName` in apps/api/src/data-control/import-mappers.ts. */
module ImportNames {
  import opened Common

  // ---------------------------------------------------------------- lower case and decimals

  function LowerChar(c: char): char {
    if 'A' <= c <= 'Z' then c + ' ' else c
  }

  function Lower(s: string): (r: string)
    ensures |r| == |s|
    ensures forall i :: 0 <= i < |s| ==> r[i] == LowerChar(s[i])
  {
    if s == "" then "" else [LowerChar(s[0])] + Lower(s[1..])
  }

  function Digit(d: nat): (c: char)
    requires d < 10
    ensures '0' <= c <= '9' && (c as int) - ('0' as int) == d
  {
    '0' + d as char
  }

  function Decimal(n: nat): (r: string)
    ensures r != "" && forall i :: 0 <= i < |r| ==> '0' <= r[i] <= '9'
  {
    if n < 10 then [Digit(n)] else Decimal(n / 10) + [Digit(n % 10)]
  }

  lemma {:induction false} DecimalInjective(m: nat, n: nat)
    requires Decimal(m) == Decimal(n)
    ensures m == n
  {
    var a, b := Decimal(m), Decimal(n);
    assert a[|a| - 1] == b[|b| - 1];
    if m >= 10 && n >= 10 {
      assert Decimal(m / 10) == a[..|a| - 1] && Decimal(n / 10) == b[..|b| - 1];
      DecimalInjective(m / 10, n / 10);
    }
  }

  // ---------------------------------------------------------------- numbered names

  const FIRST_SUFFIX := " (imported)"
  const OPEN := " (imported "
  const CLOSE := ")"

  /** The k-th name tried, counting from 1. */
  function Numbered(base: string, k: nat): string {
    if k <= 1 then base + FIRST_SUFFIX else base + OPEN + Decimal(k) + CLOSE
  }

  lemma NumberedLength(base: string, k: nat)
    requires k >= 1
    ensures |Numbered(base, k)| == |base| + (if k == 1 then 11 else 12 + |Decimal(k)|)
  {
  }

  lemma NumberedMiddle(base: string, k: nat)
    requires k >= 2
    ensures |Numbered(base, k)| == |base| + 12 + |Decimal(k)|
    ensures forall i :: 0 <= i < |Decimal(k)| ==> Lower(Numbered(base, k))[|base| + 11 + i] == Decimal(k)[i]
  {
  }

  /** Differently numbered names stay different in lower case. */
  lemma NumberedInjective(base: string, k: nat, l: nat)
    requires k >= 1 && l >= 1 && Lower(Numbered(base, k)) == Lower(Numbered(base, l))
    ensures k == l
  {
    NumberedLength(base, k);
    NumberedLength(base, l);
    if k >= 2 && l >= 2 {
      NumberedMiddle(base, k);
      NumberedMiddle(base, l);
      var a, b := Decimal(k), Decimal(l);
      assert |a| == |b|;
      forall i | 0 <= i < |a|
        ensures a[i] == b[i]
      {
        assert Lower(Numbered(base, k))[|base| + 11 + i] == a[i];
        assert Lower(Numbered(base, l))[|base| + 11 + i] == b[i];
      }
      assert a == b;
      DecimalInjective(k, l);
    }
  }

  function LowerNumbered(base: string, k: nat): string {
    Lower(Numbered(base, k))
  }

  /** The first n names tried, in lower case. */
  function Tried(base: string, n: nat): seq<string> {
    if n == 0 then [] else Tried(base, n - 1) + [LowerNumbered(base, n)]
  }

  lemma {:induction false} TriedAt(base: string, n: nat)
    ensures |Tried(base, n)| == n
    ensures forall i :: 0 <= i < n ==> Tried(base, n)[i] == LowerNumbered(base, i + 1)
  {
    hide LowerNumbered;
    if n > 0 {
      TriedAt(base, n - 1);
    }
  }

  /** As many claimed names as rejected tries: the search ends within |claimed| + 1 tries. */
  lemma TriesBounded(base: string, n: nat, claimed: set<string>)
    requires forall k :: 1 <= k <= n ==> Lower(Numbered(base, k)) in claimed
    ensures n <= |claimed|
  {
    hide Numbered, Lower;
    var tried := Tried(base, n);
    TriedAt(base, n);
    forall i, j | 0 <= i < j < n
      ensures tried[i] != tried[j]
    {
      if tried[i] == tried[j] {
        NumberedInjective(base, i + 1, j + 1);
      }
    }
    forall x | x in tried
      ensures x in claimed
    {
      var i :| 0 <= i < n && tried[i] == x;
      assert Lower(Numbered(base, i + 1)) in claimed;
    }
    Pigeonhole(tried, claimed);
  }

  /** The name is the first free one of the series, found within |claimed| + 1 tries, and becomes claimed. */
  method UniqueImportName(baseName: string, claimedNames: set<string>) returns (name: string, claimed: set<string>, ghost tries: nat)
    ensures 1 <= tries <= |claimedNames| + 1 && name == Numbered(baseName, tries)
    ensures Lower(name) !in claimedNames
    ensures forall k :: 1 <= k < tries ==> Lower(Numbered(baseName, k)) in claimedNames
    ensures claimed == claimedNames + {Lower(name)}
  {
    hide Lower;
    name := baseName + " (imported)";
    var counter := 2;
    while Lower(name) in claimedNames
      invariant counter >= 2 && name == Numbered(baseName, counter - 1)
      invariant forall k :: 1 <= k < counter - 1 ==> Lower(Numbered(baseName, k)) in claimedNames
      decreases |claimedNames| + 2 - counter
    {
      TriesBounded(baseName, counter - 1, claimedNames);
      name := baseName + " (imported " + Decimal(counter) + ")";
      counter := counter + 1;
    }
    TriesBounded(baseName, counter - 2, claimedNames);
    tries := counter - 1;
    claimed := claimedNames + {Lower(name)};
  }

  /** The number a row of decimal digits stands for. */
  function NumberOf(digits: string): nat
    requires forall i :: 0 <= i < |digits| ==> '0' <= digits[i] <= '9'
  {
    if digits == "" then 0 else 10 * NumberOf(digits[..|digits| - 1]) + (digits[|digits| - 1] as int - '0' as int)
  }

  lemma {:induction false} DecimalReads(n: nat)
    ensures NumberOf(Decimal(n)) == n
  {
    var d := Decimal(n);
    if n < 10 {
      assert d[..0] == "";
    } else {
      DecimalReads(n / 10);
      assert d[..|d| - 1] == Decimal(n / 10);
    }
  }

  /** The names tried for an imported client: its own with a note, and from the second on with the number of the try in the note. */
  lemma NumberedReads(base: string, k: nat) returns (digits: string)
    requires k >= 1
    ensures forall i :: 0 <= i < |digits| ==> '0' <= digits[i] <= '9'
    ensures Numbered(base, k) == if k == 1 then base + " (imported)" else base + " (imported " + digits + ")"
    ensures k >= 2 ==> NumberOf(digits) == k
  {
    digits := Decimal(k);
    DecimalReads(k);
  }

  /** The characters are the same up to the case of an ASCII letter. */
  predicate SameLetter(a: char, b: char) {
    a == b || ('A' <= a <= 'Z' && b as int == a as int + 32) || ('A' <= b <= 'Z' && a as int == b as int + 32)
  }

  /** Lower-casing identifies exactly the names that differ only in the case of ASCII letters. */
  lemma {:induction false} LowerFolds(s: string, t: string)
    ensures Lower(s) == Lower(t) <==> |s| == |t| && forall i :: 0 <= i < |s| ==> SameLetter(s[i], t[i])
  {
    hide Lower, LowerChar, SameLetter;
    if |s| == |t| {
      forall i | 0 <= i < |s|
        ensures Lower(s)[i] == Lower(t)[i] <==> SameLetter(s[i], t[i])
      {
        LowerSame(s[i], t[i]);
      }
      if Lower(s) == Lower(t) {
        assert forall i :: 0 <= i < |s| ==> Lower(s)[i] == Lower(t)[i];
      }
    } else {
      assert |Lower(s)| == |s| && |Lower(t)| == |t|;
    }
  }

  lemma LowerSame(a: char, b: char)
    ensures LowerChar(a) == LowerChar(b) <==> SameLetter(a, b)
  {
  }
}
