/**
 * Swift's `Array.filter`, with what it promises: the result holds exactly the
 * elements that satisfy the predicate, in their original order.
 */
module Sequences {

  /** `sub` is obtained from `s` by deleting elements, keeping the order of the rest. */
  predicate IsSubsequence<T(==)>(sub: seq<T>, s: seq<T>)
    decreases |s|
  {
    sub == [] ||
    (|s| > 0 &&
     ((sub[0] == s[0] && IsSubsequence(sub[1..], s[1..])) || IsSubsequence(sub, s[1..])))
  }

  /** `s.filter(keep)`. */
  function Filter<T(==)>(s: seq<T>, keep: T -> bool): (r: seq<T>)
    ensures |r| <= |s|
    ensures forall i :: 0 <= i < |r| ==> r[i] in s && keep(r[i])
    ensures forall i :: 0 <= i < |s| && keep(s[i]) ==> s[i] in r
    ensures r == [] <==> forall i :: 0 <= i < |s| ==> !keep(s[i])
  {
    if s == [] then []
    else if keep(s[0]) then [s[0]] + Filter(s[1..], keep)
    else Filter(s[1..], keep)
  }

  /** The filtered array preserves the order of the original. */
  lemma {:induction false} FilterIsSubsequence<T>(s: seq<T>, keep: T -> bool)
    ensures IsSubsequence(Filter(s, keep), s)
  {
    if s != [] {
      FilterIsSubsequence(s[1..], keep);
    }
  }

  /**
   * Nothing is dropped that could have been kept: every order-preserving
   * selection of elements satisfying `keep` is itself a selection from the
   * filtered array, so the filtered array is the largest such selection.
   */
  lemma {:induction false} FilterIsMaximal<T>(sub: seq<T>, s: seq<T>, keep: T -> bool)
    requires IsSubsequence(sub, s)
    requires forall i :: 0 <= i < |sub| ==> keep(sub[i])
    ensures IsSubsequence(sub, Filter(s, keep))
    decreases |s|
  {
    if sub == [] {
    } else if sub[0] == s[0] && IsSubsequence(sub[1..], s[1..]) {
      FilterIsMaximal(sub[1..], s[1..], keep);
      var f := Filter(s, keep);
      assert f == [s[0]] + Filter(s[1..], keep);
      assert f[1..] == Filter(s[1..], keep);
    } else {
      FilterIsMaximal(sub, s[1..], keep);
      if keep(s[0]) {
        var f := Filter(s, keep);
        assert f[1..] == Filter(s[1..], keep);
      }
    }
  }

  /** Two sequences that are subsequences of each other are equal. */
  lemma {:induction false} SubsequenceAntisymmetric<T>(a: seq<T>, b: seq<T>)
    requires IsSubsequence(a, b) && IsSubsequence(b, a)
    ensures a == b
  {
    SubsequenceLength(a, b);
    SubsequenceLength(b, a);
    SubsequenceOfSameLength(a, b);
  }

  lemma {:induction false} SubsequenceLength<T>(a: seq<T>, b: seq<T>)
    requires IsSubsequence(a, b)
    ensures |a| <= |b|
    decreases |b|
  {
    if a == [] {
    } else if a[0] == b[0] && IsSubsequence(a[1..], b[1..]) {
      SubsequenceLength(a[1..], b[1..]);
    } else {
      SubsequenceLength(a, b[1..]);
    }
  }

  lemma {:induction false} SubsequenceOfSameLength<T>(a: seq<T>, b: seq<T>)
    requires IsSubsequence(a, b) && |a| == |b|
    ensures a == b
    decreases |b|
  {
    if a == [] {
    } else if a[0] == b[0] && IsSubsequence(a[1..], b[1..]) {
      SubsequenceOfSameLength(a[1..], b[1..]);
      assert a == [a[0]] + a[1..];
      assert b == [b[0]] + b[1..];
    } else {
      SubsequenceLength(a, b[1..]);
      assert false;
    }
  }

  /**
   * The filtered array is the only order-preserving selection from `s` that
   * keeps only elements satisfying `keep` and drops none of them.
   */
  lemma FilterUnique<T>(sub: seq<T>, s: seq<T>, keep: T -> bool)
    requires IsSubsequence(sub, s)
    requires forall i :: 0 <= i < |sub| ==> keep(sub[i])
    requires IsSubsequence(Filter(s, keep), sub)
    ensures sub == Filter(s, keep)
  {
    FilterIsMaximal(sub, s, keep);
    SubsequenceAntisymmetric(sub, Filter(s, keep));
  }
}
