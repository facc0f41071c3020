/** Keeping the first occurrence of every value of a sequence, as
    `DataFrame.drop_duplicates()` does with rows (its default `keep="first"`). */
module Dedup {

  /** Position `i` holds the first occurrence of its value. */
  predicate IsFirst<T(==)>(s: seq<T>, i: nat)
    requires i < |s|
  {
    s[i] !in s[..i]
  }

  predicate Increasing(idx: seq<nat>)
  {
    forall a, b :: 0 <= a < b < |idx| ==> idx[a] < idx[b]
  }

  /** The positions below `n` that hold a first occurrence, in order. */
  function FirstIndicesBelow<T(==)>(s: seq<T>, n: nat): (idx: seq<nat>)
    requires n <= |s|
    ensures |idx| <= n
    ensures forall a :: 0 <= a < |idx| ==> idx[a] < n
    ensures Increasing(idx)
    ensures forall i :: 0 <= i < n ==> (i in idx <==> IsFirst(s, i))
  {
    if n == 0 then []
    else FirstIndicesBelow(s, n - 1) + (if IsFirst(s, n - 1) then [n - 1] else [])
  }

  /** The positions of `s` that drop_duplicates keeps. */
  function FirstIndices<T(==)>(s: seq<T>): (idx: seq<nat>)
    ensures |idx| <= |s|
    ensures forall a :: 0 <= a < |idx| ==> idx[a] < |s| && IsFirst(s, idx[a])
    ensures Increasing(idx)
    ensures forall i :: 0 <= i < |s| && IsFirst(s, i) ==> i in idx
  {
    FirstIndicesBelow(s, |s|)
  }

  /** Every value has a first occurrence, at or before any position holding it. */
  lemma {:induction false} FirstOccurrence<T>(s: seq<T>, i: nat) returns (j: nat)
    requires i < |s|
    ensures j <= i && s[j] == s[i] && IsFirst(s, j)
  {
    if IsFirst(s, i) {
      j := i;
    } else {
      var k :| 0 <= k < i && s[..i][k] == s[i];
      j := FirstOccurrence(s, k);
    }
  }

  /** The kept positions hold pairwise different values, and every value of
      `s` is held by one of them. */
  lemma KeptValuesDistinctAndCover<T>(s: seq<T>)
    ensures forall a, b :: 0 <= a < b < |FirstIndices(s)| ==> s[FirstIndices(s)[a]] != s[FirstIndices(s)[b]]
    ensures forall i :: 0 <= i < |s| ==> exists a :: 0 <= a < |FirstIndices(s)| && s[FirstIndices(s)[a]] == s[i]
  {
    var idx := FirstIndices(s);
    forall a, b | 0 <= a < b < |idx|
      ensures s[idx[a]] != s[idx[b]]
    {
      assert idx[a] < idx[b] && IsFirst(s, idx[b]);
      assert s[..idx[b]][idx[a]] == s[idx[a]];
    }
    forall i | 0 <= i < |s|
      ensures exists a :: 0 <= a < |idx| && s[idx[a]] == s[i]
    {
      var j := FirstOccurrence(s, i);
      assert j in idx;
      var a :| 0 <= a < |idx| && idx[a] == j;
    }
  }
}
