/** Finding elements of sequences, and adding them up. */
module Sequences {

  // The first place of an element.
  function IndexOf<T(==)>(s: seq<T>, x: T): (k: nat)
    ensures x in s ==> k < |s| && s[k] == x
  {
    if s == [] || s[0] == x then 0 else 1 + IndexOf(s[1..], x)
  }

  lemma {:induction false} IndexIs<T>(s: seq<T>, k: nat)
    requires k < |s|
    requires forall j :: 0 <= j < k ==> s[j] != s[k]
    ensures IndexOf(s, s[k]) == k
  {
    if k > 0 {
      assert s[0] != s[k];
      IndexIs(s[1..], k - 1);
    }
  }

  // The sum of a measure over the first n elements.
  function Sum<T>(s: seq<T>, f: T -> int, n: nat): int
    requires n <= |s|
  {
    if n == 0 then 0 else Sum(s, f, n - 1) + f(s[n - 1])
  }

  lemma {:induction false} SumUpdate<T>(s: seq<T>, f: T -> int, k: nat, x: T, n: nat)
    requires n <= |s| && k < |s|
    ensures Sum(s[k := x], f, n) == Sum(s, f, n) + if k < n then f(x) - f(s[k]) else 0
  {
    if n > 0 {
      SumUpdate(s, f, k, x, n - 1);
    }
  }

  lemma {:induction false} SumNotNegative<T>(s: seq<T>, f: T -> int, n: nat)
    requires n <= |s| && forall k :: 0 <= k < |s| ==> f(s[k]) >= 0
    ensures Sum(s, f, n) >= 0
  {
    if n > 0 {
      SumNotNegative(s, f, n - 1);
    }
  }
}
