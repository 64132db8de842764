/** Pigeonholes. */
module Counting {
  lemma {:induction false} DistinctFit(s: seq<int>, keys: set<int>)
    requires forall i :: 0 <= i < |s| ==> s[i] in keys
    requires forall i, j :: 0 <= i < j < |s| ==> s[i] != s[j]
    ensures |s| <= |keys|
    decreases |s|
  {
    if s != [] {
      var n := |s| - 1;
      DistinctFit(s[..n], keys - {s[n]});
    }
  }

  function Below(n: nat): (s: set<int>)
    ensures |s| == n
    ensures forall x :: x in s <==> 0 <= x < n
  {
    if n == 0 then {} else Below(n - 1) + {n - 1}
  }

  /** More distinct numbers than there are below n cannot all be below n. */
  lemma DistinctBelow(s: seq<int>, n: nat)
    requires forall i :: 0 <= i < |s| ==> 0 <= s[i] < n
    requires forall i, j :: 0 <= i < j < |s| ==> s[i] != s[j]
    ensures |s| <= n
  {
    DistinctFit(s, Below(n));
  }
}
