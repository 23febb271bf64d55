/** Left folds, and when their result does not depend on the order of the elements. */
module Folds {

  function Fold<S, E>(f: (S, E) -> S, s: S, es: seq<E>): S {
    if es == [] then s else f(Fold(f, s, es[..|es| - 1]), es[|es| - 1])
  }

  ghost predicate Commutes<S(!new), E(!new)>(f: (S, E) -> S) {
    forall s, a, b :: f(f(s, a), b) == f(f(s, b), a)
  }

  /** Folding in the element at `i` last gives the same result. */
  lemma {:induction false} MoveToEnd<S(!new), E(!new)>(f: (S, E) -> S, s: S, es: seq<E>, i: nat)
    requires Commutes(f) && i < |es|
    ensures Fold(f, s, es) == f(Fold(f, s, es[..i] + es[i + 1..]), es[i])
    decreases |es|
  {
    var n := |es| - 1;
    if i == n {
      assert es[..i] + es[i + 1..] == es[..n];
    } else {
      var front := es[..n];
      var rest := es[..i] + es[i + 1..];
      MoveToEnd(f, s, front, i);
      assert front[..i] + front[i + 1..] == rest[..n - 1];
      assert rest[n - 1] == es[n] && front[i] == es[i];
    }
  }

  /** Taking one element out of a sequence takes it out of its multiset. */
  lemma {:induction false} WithoutElement<E>(es: seq<E>, i: nat)
    requires i < |es|
    ensures multiset(es) == multiset(es[..i] + es[i + 1..]) + multiset{es[i]}
  {
    assert es == es[..i] + [es[i]] + es[i + 1..];
  }

  lemma {:induction false} SameLength<E>(xs: seq<E>, ys: seq<E>)
    requires multiset(xs) == multiset(ys)
    ensures |xs| == |ys|
  {
    assert |multiset(xs)| == |xs| && |multiset(ys)| == |ys|;
  }

  lemma {:induction false} OccursIn<E>(x: E, ys: seq<E>)
    requires x in multiset(ys)
    ensures exists i :: 0 <= i < |ys| && ys[i] == x
  {
    assert x in ys;
  }

  lemma {:induction false} SameRest<E>(a: multiset<E>, b: multiset<E>, x: E)
    requires a + multiset{x} == b + multiset{x}
    ensures a == b
  {
    assert a == (a + multiset{x}) - multiset{x};
    assert b == (b + multiset{x}) - multiset{x};
  }

  lemma {:induction false} FoldIgnoresOrder<S(!new), E(!new)>(f: (S, E) -> S, s: S, xs: seq<E>, ys: seq<E>)
    requires Commutes(f) && multiset(xs) == multiset(ys)
    ensures Fold(f, s, xs) == Fold(f, s, ys)
    decreases |xs|
  {
    SameLength(xs, ys);
    if xs != [] {
      var n := |xs| - 1;
      WithoutElement(xs, n);
      assert xs[..n] + xs[n + 1..] == xs[..n];
      OccursIn(xs[n], ys);
      var i :| 0 <= i < |ys| && ys[i] == xs[n];
      var rest := ys[..i] + ys[i + 1..];
      WithoutElement(ys, i);
      SameRest(multiset(xs[..n]), multiset(rest), xs[n]);
      FoldIgnoresOrder(f, s, xs[..n], rest);
      MoveToEnd(f, s, ys, i);
    }
  }
}
