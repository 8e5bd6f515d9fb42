/**
 What several components share: optional values, lists without repetition, initial segments of the numbers,
 and repeated characters.
 */
module Common {
  datatype Option<T> = None | Some(value: T)

  predicate Distinct<T(==)>(s: seq<T>) {
    forall i, j :: 0 <= i < j < |s| ==> s[i] != s[j]
  }

  /** The numbers below k. */
  ghost function Below(k: nat): (s: set<nat>)
    ensures forall n: nat :: n in s <==> n < k
    ensures |s| == k
  {
    if k == 0 then {} else Below(k - 1) + {k - 1}
  }

  function Repeat(c: char, n: nat): (s: string)
    ensures |s| == n && forall i :: 0 <= i < n ==> s[i] == c
  {
    seq(n, _ => c)
  }
}
