/** Order-preserving selection from sequences, and the slicing helpers of JavaScript arrays. */
module Seqs {

  /** Strictly increasing positions. */
  ghost predicate Increasing(idx: seq<nat>) {
    forall a, b :: 0 <= a < b < |idx| ==> idx[a] < idx[b]
  }

  /** `r` is the subsequence of `s` found at the increasing positions `idx`. */
  ghost predicate SubsequenceAt<T>(r: seq<T>, s: seq<T>, idx: seq<nat>) {
    && |idx| == |r|
    && Increasing(idx)
    && forall k :: 0 <= k < |r| ==> idx[k] < |s| && r[k] == s[idx[k]]
  }

  /** `r` is an order-preserving subsequence of `s`. */
  ghost predicate IsSubsequence<T>(r: seq<T>, s: seq<T>) {
    exists idx :: SubsequenceAt(r, s, idx)
  }

  /** The elements of `s` whose flag in `keep` is set, in their original order
      (what `Array.prototype.filter` returns for the predicate `keep`). */
  function Select<T>(s: seq<T>, keep: seq<bool>): (r: seq<T>)
    requires |keep| == |s|
    ensures |r| <= |s|
    ensures forall x :: x in r ==> x in s
    decreases |s|
  {
    if |s| == 0 then []
    else Select(s[..|s| - 1], keep[..|s| - 1]) + (if keep[|s| - 1] then [s[|s| - 1]] else [])
  }

  /** The positions whose flag is set, in ascending order. */
  function Kept(keep: seq<bool>): (idx: seq<nat>)
    ensures Increasing(idx)
    ensures forall k :: 0 <= k < |idx| ==> idx[k] < |keep| && keep[idx[k]]
    ensures forall i :: 0 <= i < |keep| && keep[i] ==> i in idx
    decreases |keep|
  {
    if |keep| == 0 then []
    else Kept(keep[..|keep| - 1]) + (if keep[|keep| - 1] then [|keep| - 1] else [])
  }

  /** `Select` keeps exactly the flagged positions, and keeps them in order. */
  lemma {:induction false} SelectAt<T>(s: seq<T>, keep: seq<bool>)
    requires |keep| == |s|
    ensures SubsequenceAt(Select(s, keep), s, Kept(keep))
    decreases |s|
  {
    if |s| > 0 {
      var n := |s| - 1;
      SelectAt(s[..n], keep[..n]);
      var r0, i0 := Select(s[..n], keep[..n]), Kept(keep[..n]);
      assert |Select(s, keep)| == |Kept(keep)|;
      forall k | 0 <= k < |Select(s, keep)|
        ensures Kept(keep)[k] < |s| && Select(s, keep)[k] == s[Kept(keep)[k]]
      {
        if k < |r0| {
          assert Select(s, keep)[k] == r0[k] && Kept(keep)[k] == i0[k];
        }
      }
    }
  }

  /** What `Select` keeps is a flagged element, and every flagged element is kept. */
  lemma SelectMembers<T>(s: seq<T>, keep: seq<bool>)
    requires |keep| == |s|
    ensures forall x :: x in Select(s, keep) ==> exists i :: 0 <= i < |s| && keep[i] && s[i] == x
    ensures forall i :: 0 <= i < |s| && keep[i] ==> s[i] in Select(s, keep)
  {
    var r, idx := Select(s, keep), Kept(keep);
    SelectAt(s, keep);
    forall x | x in r ensures exists i :: 0 <= i < |s| && keep[i] && s[i] == x {
      var k :| 0 <= k < |r| && r[k] == x;
      assert keep[idx[k]] && s[idx[k]] == x;
    }
    forall i | 0 <= i < |s| && keep[i] ensures s[i] in r {
      var k :| 0 <= k < |idx| && idx[k] == i;
      assert r[k] == s[i];
    }
  }

  lemma SelectIsSubsequence<T>(s: seq<T>, keep: seq<bool>)
    requires |keep| == |s|
    ensures IsSubsequence(Select(s, keep), s)
  {
    SelectAt(s, keep);
  }

  /** A subsequence of a subsequence of `s` is a subsequence of `s`. */
  lemma SubsequenceTrans<T>(a: seq<T>, b: seq<T>, c: seq<T>)
    requires IsSubsequence(a, b) && IsSubsequence(b, c)
    ensures IsSubsequence(a, c)
  {
    var i1 :| SubsequenceAt(a, b, i1);
    var i2 :| SubsequenceAt(b, c, i2);
    var idx := seq(|i1|, k requires 0 <= k < |i1| => i2[i1[k]]);
    assert SubsequenceAt(a, c, idx);
  }

  lemma SubsequenceRefl<T>(s: seq<T>)
    ensures IsSubsequence(s, s)
  {
    var idx := seq(|s|, k requires 0 <= k < |s| => k);
    assert SubsequenceAt(s, s, idx);
  }

  /** The first `n` elements, or all of them when there are fewer
      (`arr.slice(0, n)` for `n >= 0`, and SQL `LIMIT n`). */
  function Take<T>(s: seq<T>, n: nat): (r: seq<T>)
    ensures |r| <= n && |r| <= |s|
    ensures |s| <= n ==> r == s
    ensures |s| > n ==> |r| == n
    ensures forall k :: 0 <= k < |r| ==> r[k] == s[k]
  {
    if |s| <= n then s else s[..n]
  }

  /** Skip `offset` elements, then keep at most `limit` (SQL `OFFSET` and `LIMIT`, and
      `arr.slice(offset, offset + limit)` for non-negative bounds). */
  function Window<T>(s: seq<T>, offset: nat, limit: nat): (r: seq<T>)
    ensures |r| <= limit
    ensures |r| == if offset >= |s| then 0 else if |s| - offset < limit then |s| - offset else limit
    ensures forall k :: 0 <= k < |r| ==> r[k] == s[offset + k]
  {
    if offset >= |s| then [] else Take(s[offset..], limit)
  }
}
