/** Sequence helpers shared by the converters and the routers. */
module Seqs {

  /** Concatenation of f(x) over xs, in order. */
  function FlatMap<A, B>(xs: seq<A>, f: A -> seq<B>): seq<B>
    decreases |xs|
  {
    if |xs| == 0 then [] else f(xs[0]) + FlatMap(xs[1..], f)
  }

  /** Flat-mapping distributes over concatenation, so input order is output order. */
  lemma {:induction false} FlatMapAppend<A, B>(xs: seq<A>, ys: seq<A>, f: A -> seq<B>)
    ensures FlatMap(xs + ys, f) == FlatMap(xs, f) + FlatMap(ys, f)
    decreases |xs|
  {
    if |xs| == 0 {
      assert xs + ys == ys;
    } else {
      assert (xs + ys)[1..] == xs[1..] + ys;
      FlatMapAppend(xs[1..], ys, f);
    }
  }

  function SumLengths<A, B>(xs: seq<A>, f: A -> seq<B>): nat
    decreases |xs|
  {
    if |xs| == 0 then 0 else |f(xs[0])| + SumLengths(xs[1..], f)
  }

  lemma {:induction false} FlatMapLength<A, B>(xs: seq<A>, f: A -> seq<B>)
    ensures |FlatMap(xs, f)| == SumLengths(xs, f)
    decreases |xs|
  {
    if |xs| > 0 { FlatMapLength(xs[1..], f); }
  }

  /** No element of `s` occurs twice. */
  predicate Distinct<T(==)>(s: seq<T>)
  {
    forall i, j :: 0 <= i < j < |s| ==> s[i] != s[j]
  }

  /** `order` lists every element of `keys` exactly once: one iteration order of a map with those keys. */
  predicate IsOrder<T(==)>(order: seq<T>, keys: set<T>)
  {
    Distinct(order) && (forall k :: k in keys ==> k in order) && (forall i :: 0 <= i < |order| ==> order[i] in keys)
  }

  /** `sub` is `s` with some elements left out, the rest kept in order. */
  predicate IsSubsequence<T(==)>(sub: seq<T>, s: seq<T>)
    decreases |s|
  {
    if |s| == 0 then |sub| == 0
    else
      (|sub| > 0 && sub[|sub| - 1] == s[|s| - 1] && IsSubsequence(sub[..|sub| - 1], s[..|s| - 1]))
      || IsSubsequence(sub, s[..|s| - 1])
  }

  lemma {:induction false} SubsequenceRefl<T>(s: seq<T>)
    ensures IsSubsequence(s, s)
    decreases |s|
  {
    if |s| > 0 { SubsequenceRefl(s[..|s| - 1]); }
  }

  lemma {:induction false} SubsequenceEmpty<T>(s: seq<T>)
    ensures IsSubsequence([], s)
    decreases |s|
  {
    if |s| > 0 { SubsequenceEmpty(s[..|s| - 1]); }
  }

  /** Appending to the source keeps a subsequence; appending to both extends it. */
  lemma SubsequenceSnoc<T>(sub: seq<T>, s: seq<T>, x: T)
    requires IsSubsequence(sub, s)
    ensures IsSubsequence(sub, s + [x]) && IsSubsequence(sub + [x], s + [x])
  {
    assert (s + [x])[..|s|] == s;
    assert (sub + [x])[..|sub|] == sub;
  }

  lemma {:induction false} SubsequenceTrans<T>(a: seq<T>, b: seq<T>, c: seq<T>)
    requires IsSubsequence(a, b) && IsSubsequence(b, c)
    ensures IsSubsequence(a, c)
    decreases |c|
  {
    if |c| > 0 {
      var c' := c[..|c| - 1];
      if |b| > 0 && b[|b| - 1] == c[|c| - 1] && IsSubsequence(b[..|b| - 1], c') {
        var b' := b[..|b| - 1];
        if |a| > 0 && a[|a| - 1] == b[|b| - 1] && IsSubsequence(a[..|a| - 1], b') {
          SubsequenceTrans(a[..|a| - 1], b', c');
        } else {
          SubsequenceTrans(a, b', c');
        }
      } else {
        SubsequenceTrans(a, b, c');
      }
    }
  }

  lemma {:induction false} SubsequenceElements<T>(sub: seq<T>, s: seq<T>)
    requires IsSubsequence(sub, s)
    ensures forall x :: x in sub ==> x in s
    ensures |sub| <= |s|
    decreases |s|
  {
    if |s| > 0 {
      var s' := s[..|s| - 1];
      assert forall x :: x in s' ==> x in s;
      if |sub| > 0 && sub[|sub| - 1] == s[|s| - 1] && IsSubsequence(sub[..|sub| - 1], s') {
        SubsequenceElements(sub[..|sub| - 1], s');
        assert sub == sub[..|sub| - 1] + [sub[|sub| - 1]];
      } else {
        SubsequenceElements(sub, s');
      }
    }
  }
}
