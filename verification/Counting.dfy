/** Counting by injection. */
module Counting {

  ghost predicate Distinct(f: seq<nat>) {
    forall i, k :: 0 <= i < k < |f| ==> f[i] != f[k]
  }

  /** Distinct numbers below `m` are at most `m` in number. */
  lemma {:induction false} DistinctBelow(f: seq<nat>, m: nat)
    requires Distinct(f)
    requires forall i :: 0 <= i < |f| ==> f[i] < m
    ensures |f| <= m
    decreases m
  {
    assert f == [] || f[0] < m;
    if m == 0 {
    } else if i :| 0 <= i < |f| && f[i] == m - 1 {
      var g := f[..i] + f[i + 1..];
      assert forall k :: 0 <= k < |g| ==> g[k] == if k < i then f[k] else f[k + 1];
      DistinctBelow(g, m - 1);
    } else {
      DistinctBelow(f, m - 1);
    }
  }
}
