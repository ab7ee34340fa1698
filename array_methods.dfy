/**
 * The three host array methods the library delegates to
 * (`Array.prototype.map`, `filter` and `reduce` with an initial value),
 * on arrays taken as immutable sequences.
 */
module ArrayMethods {

  /** `xs.map(f)`: a new sequence holding `f` of each element, in order. */
  function MapSeq<T, R>(f: T -> R, xs: seq<T>): (r: seq<R>)
    ensures |r| == |xs|
    ensures forall i :: 0 <= i < |xs| ==> r[i] == f(xs[i])
  {
    if xs == [] then [] else [f(xs[0])] + MapSeq(f, xs[1..])
  }

  /** `s` can be obtained from `xs` by deleting elements, keeping the order of the rest. */
  ghost predicate IsSubsequence<T>(s: seq<T>, xs: seq<T>)
    decreases |xs|
  {
    if s == [] then true
    else if xs == [] then false
    else (s[0] == xs[0] && IsSubsequence(s[1..], xs[1..])) || IsSubsequence(s, xs[1..])
  }

  /**
   * `xs.filter(p)`: the elements of `xs` that satisfy `p`, in their original
   * order, each as many times as it occurs in `xs`; nothing else.
   */
  function FilterSeq<T>(p: T -> bool, xs: seq<T>): (r: seq<T>)
    ensures |r| <= |xs|
    ensures forall i :: 0 <= i < |r| ==> p(r[i])
    ensures IsSubsequence(r, xs)
    ensures multiset(r) <= multiset(xs)
    ensures forall i :: 0 <= i < |xs| && p(xs[i]) ==> multiset(r)[xs[i]] == multiset(xs)[xs[i]]
  {
    if xs == [] then []
    else
      var rest := FilterSeq(p, xs[1..]);
      assert xs == [xs[0]] + xs[1..];
      if p(xs[0]) then [xs[0]] + rest else rest
  }

  /**
   * `xs.reduce(f, init)`: the accumulator starts at `init` and absorbs the
   * elements left to right. An empty array yields `init`; otherwise the last
   * element is absorbed last, into the fold of all the others.
   */
  function FoldLeft<T, R>(f: (R, T) -> R, init: R, xs: seq<T>): (r: R)
    ensures xs == [] ==> r == init
    ensures xs != [] ==> r == f(FoldLeft(f, init, xs[..|xs| - 1]), xs[|xs| - 1])
    decreases |xs|
  {
    if xs == [] then init
    else
      var n := |xs|;
      assert n >= 2 ==> xs[..n - 1][1..] == xs[1..][..n - 2];
      assert n == 1 ==> xs[..n - 1] == [] && xs[1..] == [];
      FoldLeft(f, f(init, xs[0]), xs[1..])
  }

  /** Folding a concatenation folds the second part starting from the fold of the first. */
  lemma {:induction false} FoldLeftAppend<T, R>(f: (R, T) -> R, init: R, xs: seq<T>, ys: seq<T>)
    ensures FoldLeft(f, init, xs + ys) == FoldLeft(f, FoldLeft(f, init, xs), ys)
    decreases |xs|
  {
    if xs == [] {
      assert xs + ys == ys;
    } else {
      assert (xs + ys)[1..] == xs[1..] + ys;
      FoldLeftAppend(f, f(init, xs[0]), xs[1..], ys);
    }
  }

  /** The fold of the first `k + 1` elements is `f` applied to the fold of the first `k` and `xs[k]`. */
  lemma {:induction false} FoldLeftStep<T, R>(f: (R, T) -> R, init: R, xs: seq<T>, k: nat)
    requires k < |xs|
    ensures FoldLeft(f, init, xs[..k + 1]) == f(FoldLeft(f, init, xs[..k]), xs[k])
  {
    assert xs[..k + 1] == xs[..k] + [xs[k]];
    FoldLeftAppend(f, init, xs[..k], [xs[k]]);
    assert [xs[k]][1..] == [];
  }
}
