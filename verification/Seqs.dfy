/** Slices of sequences, one fact at a time. */
module Seqs {

  lemma SliceOfSlice<T>(s: seq<T>, a: nat, b: nat, c: nat, d: nat)
    requires a <= b <= |s| && c <= d <= b - a
    ensures s[a..b][c..d] == s[a + c..a + d]
  {
    var x, l, r := s[a..b], s[a..b][c..d], s[a + c..a + d];
    forall i | 0 <= i < |l|
      ensures l[i] == r[i]
    {
      assert l[i] == x[c + i] == s[a + c + i];
    }
  }

  /** A part of `s[a..b]`, seen from `s`. */
  lemma PartOfSlice<T>(s: seq<T>, a: nat, b: nat, whole: seq<T>, at: nat, n: nat, part: seq<T>)
    requires a <= at && at + n <= b <= |s| && s[a..b] == whole && whole[at - a..at - a + n] == part
    ensures s[at..at + n] == part
  {
    SliceOfSlice(s, a, b, at - a, at - a + n);
  }

  lemma SplitSlice<T>(s: seq<T>, a: nat, b: nat, c: nat)
    requires a <= b <= c <= |s|
    ensures s[a..c] == s[a..b] + s[b..c]
  {
  }

  lemma SliceOfLeft<T>(s: seq<T>, t: seq<T>, a: nat, b: nat)
    requires a <= b <= |s|
    ensures (s + t)[a..b] == s[a..b]
  {
  }

  lemma SliceOfRight<T>(s: seq<T>, t: seq<T>)
    ensures (s + t)[|s|..|s| + |t|] == t
  {
  }

  /** A middle part is replaced by one of the same length. */
  lemma ReplaceMiddle<T>(s: seq<T>, a: nat, m: seq<T>, r: seq<T>)
    requires a + |m| <= |s| && r == s[..a] + m + s[a + |m|..]
    ensures |r| == |s| && r[a..a + |m|] == m
    ensures forall i :: 0 <= i < |s| && (i < a || a + |m| <= i) ==> r[i] == s[i]
  {
  }

}
