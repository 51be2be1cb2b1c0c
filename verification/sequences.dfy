/** Order-preserving relations on sequences used to state what the loops attempt and append. */
module Sequences {

  /** `xs` can be obtained from `ys` by deleting elements: its elements occur in `ys` in the same order. */
  predicate IsSubsequence<T(==)>(xs: seq<T>, ys: seq<T>)
    decreases |ys|
  {
    if ys == [] then xs == []
    else IsSubsequence(xs, ys[1..]) || (xs != [] && xs[0] == ys[0] && IsSubsequence(xs[1..], ys[1..]))
  }

  lemma {:induction false} EmptyIsSubsequence<T>(ys: seq<T>)
    ensures IsSubsequence([], ys)
    decreases |ys|
  {
    if ys != [] {
      EmptyIsSubsequence(ys[1..]);
    }
  }

  /** Appending to the longer sequence keeps a subsequence, and so does appending the same element to both. */
  lemma {:induction false} SubsequenceAppend<T>(xs: seq<T>, ys: seq<T>, y: T)
    requires IsSubsequence(xs, ys)
    ensures IsSubsequence(xs, ys + [y])
    ensures IsSubsequence(xs + [y], ys + [y])
    decreases |ys|
  {
    if ys == [] {
      assert xs == [];
      assert ([y])[1..] == [];
      EmptyIsSubsequence<T>([]);
      assert ([] + [y])[1..] == [];
    } else {
      assert (ys + [y])[1..] == ys[1..] + [y];
      assert (ys + [y])[0] == ys[0];
      if IsSubsequence(xs, ys[1..]) {
        SubsequenceAppend(xs, ys[1..], y);
      } else {
        SubsequenceAppend(xs[1..], ys[1..], y);
        assert (xs + [y])[0] == xs[0];
        assert (xs + [y])[1..] == xs[1..] + [y];
      }
    }
  }

  /** Every element of a subsequence is an element of the sequence. */
  lemma {:induction false} SubsequenceMembers<T>(xs: seq<T>, ys: seq<T>)
    requires IsSubsequence(xs, ys)
    ensures forall i :: 0 <= i < |xs| ==> xs[i] in ys
    decreases |ys|
  {
    if ys != [] {
      if IsSubsequence(xs, ys[1..]) {
        SubsequenceMembers(xs, ys[1..]);
      } else {
        SubsequenceMembers(xs[1..], ys[1..]);
        forall i | 0 < i < |xs|
          ensures xs[i] in ys
        {
          assert xs[i] == xs[1..][i - 1];
        }
      }
    }
  }

  /** `xs` with every occurrence of `x` removed; the other entries, duplicates included, keep their order. */
  function Without<T(==)>(xs: seq<T>, x: T): (r: seq<T>)
    ensures forall i :: 0 <= i < |r| ==> r[i] in xs && r[i] != x
    ensures forall i :: 0 <= i < |xs| && xs[i] != x ==> xs[i] in r
    decreases |xs|
  {
    if xs == [] then []
    else (if xs[0] == x then [] else [xs[0]]) + Without(xs[1..], x)
  }
  /** One unfolding of Without at a prepended element. */
  lemma WithoutCons<T>(x: T, xs: seq<T>, y: T)
    ensures Without([x] + xs, y) == (if x == y then [] else [x]) + Without(xs, y)
  {
    assert ([x] + xs)[1..] == xs;
  }


  predicate NoDuplicates<T(==)>(xs: seq<T>)
  {
    forall i, j :: 0 <= i < j < |xs| ==> xs[i] != xs[j]
  }
}
