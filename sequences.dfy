/** Order-preserving filtering of sequences, the shape every data-frame
    mask in the reporting code takes. */
module Sequences {

  /** `a` can be obtained from `b` by deleting elements (order kept). */
  predicate SubseqOf<T(==)>(a: seq<T>, b: seq<T>)
    decreases |b|
  {
    if a == [] then true
    else if b == [] then false
    else if a[0] == b[0] then SubseqOf(a[1..], b[1..])
    else SubseqOf(a, b[1..])
  }

  lemma {:induction false} SubseqOfSelf<T>(xs: seq<T>)
    ensures SubseqOf(xs, xs)
  {
    if xs != [] {
      SubseqOfSelf(xs[1..]);
    }
  }

  /** The elements of `xs` satisfying `p`, in their original order. */
  function Keep<T(==)>(xs: seq<T>, p: T -> bool): (r: seq<T>)
    ensures |r| <= |xs|
    ensures SubseqOf(r, xs)
    ensures forall i :: 0 <= i < |r| ==> p(r[i])
  {
    if xs == [] then []
    else
      var rest := Keep(xs[1..], p);
      if p(xs[0]) then
        var r := [xs[0]] + rest;
        assert r[1..] == rest;
        r
      else
        assert rest != [] ==> rest[0] != xs[0];
        rest
  }

  /** Filtering keeps every element satisfying `p` as often as it occurs,
      and no other element. */
  lemma {:induction false} KeepCount<T(!new)>(xs: seq<T>, p: T -> bool)
    ensures forall x :: multiset(Keep(xs, p))[x] == if p(x) then multiset(xs)[x] else 0
  {
    if xs != [] {
      KeepCount(xs[1..], p);
      assert xs == [xs[0]] + xs[1..];
    }
  }

  /** Filtering two arrangements of the same elements keeps the same
      elements. */
  lemma {:induction false} KeepPermutation<T(!new)>(xs: seq<T>, ys: seq<T>, p: T -> bool)
    requires multiset(xs) == multiset(ys)
    ensures multiset(Keep(xs, p)) == multiset(Keep(ys, p))
  {
    KeepCount(xs, p);
    KeepCount(ys, p);
    assert forall x :: multiset(Keep(xs, p))[x] == multiset(Keep(ys, p))[x];
  }

  lemma {:induction false} KeepMember<T(!new)>(xs: seq<T>, p: T -> bool, x: T)
    ensures x in Keep(xs, p) <==> x in xs && p(x)
  {
    KeepCount(xs, p);
    assert x in Keep(xs, p) <==> multiset(Keep(xs, p))[x] > 0;
    assert x in xs <==> multiset(xs)[x] > 0;
  }

  /** Filtering twice, the second time by a stronger condition, is the
      same as filtering once by the stronger one. */
  lemma {:induction false} KeepStronger<T(!new)>(xs: seq<T>, p: T -> bool, q: T -> bool)
    requires forall x :: q(x) ==> p(x)
    ensures Keep(Keep(xs, p), q) == Keep(xs, q)
  {
    if xs != [] {
      KeepStronger(xs[1..], p, q);
      var inner := Keep(xs[1..], p);
      if p(xs[0]) {
        assert Keep(xs, p) == [xs[0]] + inner;
        assert ([xs[0]] + inner)[1..] == inner;
      }
    }
  }

  /** Two conditions that agree on every element filter alike. */
  lemma {:induction false} KeepAgree<T(!new)>(xs: seq<T>, p: T -> bool, q: T -> bool)
    requires forall i :: 0 <= i < |xs| ==> p(xs[i]) == q(xs[i])
    ensures Keep(xs, p) == Keep(xs, q)
  {
    if xs != [] {
      assert forall i :: 1 <= i < |xs| ==> xs[i] == xs[1..][i - 1];
      KeepAgree(xs[1..], p, q);
    }
  }

  lemma {:induction false} KeepNone<T(!new)>(xs: seq<T>, p: T -> bool)
    ensures Keep(xs, p) == [] <==> forall i :: 0 <= i < |xs| ==> !p(xs[i])
  {
    if xs != [] {
      KeepNone(xs[1..], p);
      assert forall i :: 1 <= i < |xs| ==> xs[i] == xs[1..][i - 1];
    }
  }
}
