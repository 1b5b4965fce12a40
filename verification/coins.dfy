/** Coins as the Cosmos SDK represents them (`sdk.Coin`, `sdk.Coins`) and the
    ordering by denomination that `sdk.Coins.Sort` establishes. */
module Coins {

  /** `sdk.Coin`: a denomination and an amount (`sdk.Int`, an unbounded integer). */
  datatype Coin = Coin(denom: string, amount: int)

  /** Go's `<` on strings: byte-wise lexicographic order, a proper prefix coming
      first. On UTF-8 text the byte order is the order of code points, which is
      the order of `char`s here. */
  predicate DenomLess(a: string, b: string)
    decreases |a|
  {
    |b| > 0 && (|a| == 0 || a[0] < b[0] || (a[0] == b[0] && DenomLess(a[1..], b[1..])))
  }

  /** No denomination precedes itself (Go's `s < s` is false). */
  lemma {:induction false} DenomLessIrreflexive(a: string)
    ensures !DenomLess(a, a)
  {
    if |a| > 0 {
      DenomLessIrreflexive(a[1..]);
    }
  }

  lemma {:induction false} DenomLessAsymmetric(a: string, b: string)
    ensures DenomLess(a, b) ==> !DenomLess(b, a)
  {
    if |a| > 0 && |b| > 0 && a[0] == b[0] {
      DenomLessAsymmetric(a[1..], b[1..]);
    }
  }

  /** Negative transitivity: "not less than" is transitive, which is what makes
      "no later denomination is smaller" a sortedness notion sort.Sort can reach. */
  lemma {:induction false} DenomLessNegativelyTransitive(x: string, y: string, z: string)
    ensures DenomLess(x, z) ==> DenomLess(x, y) || DenomLess(y, z)
  {
    if |x| > 0 && |y| > 0 && |z| > 0 && x[0] == y[0] && y[0] == z[0] {
      DenomLessNegativelyTransitive(x[1..], y[1..], z[1..]);
    }
  }

  /** Two different denominations are always ordered one way or the other. */
  lemma {:induction false} DenomLessTrichotomous(a: string, b: string)
    ensures a == b || DenomLess(a, b) || DenomLess(b, a)
  {
    if |a| > 0 && |b| > 0 && a[0] == b[0] {
      DenomLessTrichotomous(a[1..], b[1..]);
      if a[1..] == b[1..] {
        assert a == [a[0]] + a[1..] && b == [b[0]] + b[1..];
      }
    }
  }

  /** What `sort.Sort(coins)` guarantees with `Less(i, j) = coins[i].Denom < coins[j].Denom`:
      no coin is preceded by a coin with a larger denomination. */
  ghost predicate SortedByDenom(s: seq<Coin>)
  {
    forall i, j :: 0 <= i < j < |s| ==> !DenomLess(s[j].denom, s[i].denom)
  }

  /** Pairwise different denominations. */
  ghost predicate DistinctDenoms(s: seq<Coin>)
  {
    forall i, j :: 0 <= i < j < |s| ==> s[i].denom != s[j].denom
  }

  /** `sdk.Coins.Sort`: sorts the coins by denomination in place. The loop is the
      insertion sort Go's `sort.Sort` runs: each coin is swapped leftwards while
      it is `Less` than its left neighbour. */
  method Sort(a: array<Coin>)
    modifies a
    ensures SortedByDenom(a[..])
    ensures multiset(a[..]) == old(multiset(a[..]))
  {
    if a.Length <= 1 {
      return;
    }
    var i := 1;
    while i < a.Length
      invariant 1 <= i <= a.Length
      invariant forall k, l :: 0 <= k < l < i ==> !DenomLess(a[l].denom, a[k].denom)
      invariant multiset(a[..]) == old(multiset(a[..]))
    {
      var j := i;
      while j > 0 && DenomLess(a[j].denom, a[j - 1].denom)
        invariant 0 <= j <= i < a.Length
        invariant forall k, l :: 0 <= k < l <= i && k != j && l != j ==> !DenomLess(a[l].denom, a[k].denom)
        invariant forall l :: j < l <= i ==> DenomLess(a[j].denom, a[l].denom)
        invariant multiset(a[..]) == old(multiset(a[..]))
      {
        a[j - 1], a[j] := a[j], a[j - 1];
        j := j - 1;
      }
      forall k, l | 0 <= k < l <= i
        ensures !DenomLess(a[l].denom, a[k].denom)
      {
        if k == j {
          DenomLessAsymmetric(a[k].denom, a[l].denom);
        } else if l == j && k < j - 1 {
          DenomLessNegativelyTransitive(a[j].denom, a[j - 1].denom, a[k].denom);
        }
      }
      i := i + 1;
    }
  }

  /** When the denominations are distinct, sorting by denomination has exactly one
      possible result: two sorted arrangements of the same coins are equal. */
  lemma {:induction false} SortedPermutationUnique(s: seq<Coin>, t: seq<Coin>)
    requires SortedByDenom(s) && SortedByDenom(t)
    requires DistinctDenoms(s)
    requires multiset(s) == multiset(t)
    ensures s == t
  {
    assert |t| == |multiset(t)| == |multiset(s)| == |s|;
    if |s| > 0 {
      SortedPermutationsShareHead(s, t);
      assert s == [s[0]] + s[1..] && t == [t[0]] + t[1..];
      assert multiset(s) == multiset{s[0]} + multiset(s[1..]);
      assert multiset(t) == multiset{t[0]} + multiset(t[1..]);
      assert multiset(s[1..]) == multiset(s) - multiset{s[0]} == multiset(t) - multiset{t[0]} == multiset(t[1..]);
      SortedPermutationUnique(s[1..], t[1..]);
    }
  }

  /** The first coin of a sorted arrangement with distinct denominations is the
      one with the smallest denomination, so both arrangements start with it. */
  lemma SortedPermutationsShareHead(s: seq<Coin>, t: seq<Coin>)
    requires SortedByDenom(s) && SortedByDenom(t)
    requires DistinctDenoms(s)
    requires multiset(s) == multiset(t)
    requires |s| > 0 && |t| > 0
    ensures s[0] == t[0]
  {
    assert s[0] in multiset(t) && t[0] in multiset(s);
    var k :| 0 <= k < |t| && t[k] == s[0];
    var j :| 0 <= j < |s| && s[j] == t[0];
    if j != 0 {
      DenomLessTrichotomous(s[0].denom, s[j].denom);
      assert false;
    }
  }
}
