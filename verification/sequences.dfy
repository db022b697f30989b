/**
 * Order facts about sequences that more than one component needs: one
 * sequence as two others shuffled together, and one sequence as another
 * with elements left out.
 */
module Sequences {

  /** `xs` is `left` and `right` shuffled together, each keeping its own order. */
  ghost predicate Interleaving<T>(xs: seq<T>, left: seq<T>, right: seq<T>)
    decreases |xs|
  {
    if xs == [] then left == [] && right == []
    else
      || (left != [] && left[|left| - 1] == xs[|xs| - 1] && Interleaving(xs[..|xs| - 1], left[..|left| - 1], right))
      || (right != [] && right[|right| - 1] == xs[|xs| - 1] && Interleaving(xs[..|xs| - 1], left, right[..|right| - 1]))
  }

  /** `sub` is `xs` with some elements left out, the rest in their original order. */
  ghost predicate Subsequence<T>(sub: seq<T>, xs: seq<T>)
    decreases |xs|
  {
    if xs == [] then sub == []
    else
      || (sub != [] && sub[|sub| - 1] == xs[|xs| - 1] && Subsequence(sub[..|sub| - 1], xs[..|xs| - 1]))
      || Subsequence(sub, xs[..|xs| - 1])
  }

  /** An interleaving keeps every element exactly as often as it occurs. */
  lemma {:induction false} InterleavingKeepsElements<T>(xs: seq<T>, left: seq<T>, right: seq<T>)
    requires Interleaving(xs, left, right)
    ensures multiset(left) + multiset(right) == multiset(xs)
    decreases |xs|
  {
    if xs != [] {
      var x := xs[|xs| - 1];
      assert xs == xs[..|xs| - 1] + [x];
      if left != [] && left[|left| - 1] == x && Interleaving(xs[..|xs| - 1], left[..|left| - 1], right) {
        InterleavingKeepsElements(xs[..|xs| - 1], left[..|left| - 1], right);
        assert left == left[..|left| - 1] + [x];
      } else {
        InterleavingKeepsElements(xs[..|xs| - 1], left, right[..|right| - 1]);
        assert right == right[..|right| - 1] + [x];
      }
    }
  }

  /** Both sides of an interleaving are subsequences of it. */
  lemma {:induction false} InterleavingSubsequences<T>(xs: seq<T>, left: seq<T>, right: seq<T>)
    requires Interleaving(xs, left, right)
    ensures Subsequence(left, xs) && Subsequence(right, xs)
    decreases |xs|
  {
    if xs != [] {
      var x := xs[|xs| - 1];
      if left != [] && left[|left| - 1] == x && Interleaving(xs[..|xs| - 1], left[..|left| - 1], right) {
        InterleavingSubsequences(xs[..|xs| - 1], left[..|left| - 1], right);
      } else {
        InterleavingSubsequences(xs[..|xs| - 1], left, right[..|right| - 1]);
      }
    }
  }
}
