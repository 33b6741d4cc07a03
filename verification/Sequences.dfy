/** Comprehensions over sequences and the laws by which the proofs rearrange them. */
module Sequences {
  import opened Wrappers

  /** A comprehension with a filter: `[u for x in xs if g(x) is Some(u)]`. */
  function MapFilter<T, U>(xs: seq<T>, g: T -> Option<U>): seq<U> {
    if xs == [] then [] else AsSeq(g(xs[0])) + MapFilter(xs[1..], g)
  }

  function AsSeq<U>(o: Option<U>): seq<U> {
    match o
    case None => []
    case Some(u) => [u]
  }

  lemma {:induction false} MapFilterConcat<T, U>(xs: seq<T>, ys: seq<T>, g: T -> Option<U>)
    ensures MapFilter(xs + ys, g) == MapFilter(xs, g) + MapFilter(ys, g)
  {
    if xs == [] {
      assert xs + ys == ys;
    } else {
      assert (xs + ys)[1..] == xs[1..] + ys;
      MapFilterConcat(xs[1..], ys, g);
    }
  }

  lemma {:induction false} MapFilterIn<T, U>(xs: seq<T>, g: T -> Option<U>, u: U)
    ensures u in MapFilter(xs, g) <==> exists x :: x in xs && g(x) == Some(u)
  {
    if xs != [] {
      assert xs == [xs[0]] + xs[1..];
      MapFilterIn(xs[1..], g, u);
    }
  }

  /** A comprehension maps permutations to permutations. */
  lemma {:induction false} MapFilterPermutation<T, U>(xs: seq<T>, ys: seq<T>, g: T -> Option<U>)
    requires multiset(xs) == multiset(ys)
    ensures multiset(MapFilter(xs, g)) == multiset(MapFilter(ys, g))
    decreases |xs|
  {
    if xs == [] {
      assert |multiset(ys)| == 0;
    } else {
      var i := MoveToFront(xs, ys);
      MapFilterPermutation(xs[1..], ys[..i] + ys[i + 1..], g);
      MapFilterRemove(ys, i, g);
    }
  }

  lemma MapFilterRemove<T, U>(ys: seq<T>, i: nat, g: T -> Option<U>)
    requires i < |ys|
    ensures multiset(MapFilter(ys, g)) == multiset(AsSeq(g(ys[i]))) + multiset(MapFilter(ys[..i] + ys[i + 1..], g))
  {
    assert ys == ys[..i] + ys[i..];
    MapFilterConcat(ys[..i], ys[i..], g);
    MapFilterConcat(ys[..i], ys[i + 1..], g);
  }

  /** The head of a sequence occurs in any permutation of it, and the rests are permutations too. */
  lemma MoveToFront<T>(xs: seq<T>, ys: seq<T>) returns (i: nat)
    requires xs != [] && multiset(xs) == multiset(ys)
    ensures i < |ys| && ys[i] == xs[0]
    ensures multiset(xs[1..]) == multiset(ys[..i] + ys[i + 1..])
  {
    assert xs == [xs[0]] + xs[1..];
    assert xs[0] in multiset(ys);
    i :| 0 <= i < |ys| && ys[i] == xs[0];
    assert ys == ys[..i] + ([ys[i]] + ys[i + 1..]);
    assert multiset(ys) == multiset{xs[0]} + (multiset(ys[..i]) + multiset(ys[i + 1..]));
    assert multiset(xs) == multiset{xs[0]} + multiset(xs[1..]);
    assert multiset(xs[1..]) == multiset(xs) - multiset{xs[0]};
  }

  /** Two comprehensions in a row are one, when `h` agrees with `g` followed by `k`. */
  lemma {:induction false} MapFilterFusion<T, U, V>(xs: seq<T>, g: T -> Option<U>, k: U -> Option<V>, h: T -> Option<V>)
    requires forall x :: x in xs ==> h(x) == (if g(x).Some? then k(g(x).value) else None)
    ensures MapFilter(MapFilter(xs, g), k) == MapFilter(xs, h)
  {
    if xs != [] {
      MapFilterFusion(xs[1..], g, k, h);
      MapFilterConcat(AsSeq(g(xs[0])), MapFilter(xs[1..], g), k);
    }
  }

  lemma {:induction false} MapFilterCongruence<T, U>(xs: seq<T>, g: T -> Option<U>, h: T -> Option<U>)
    requires forall x :: x in xs ==> g(x) == h(x)
    ensures MapFilter(xs, g) == MapFilter(xs, h)
  {
    if xs != [] {
      MapFilterCongruence(xs[1..], g, h);
    }
  }

  lemma {:induction false} MapFilterLength<T, U>(xs: seq<T>, g: T -> Option<U>)
    ensures |MapFilter(xs, g)| <= |xs|
    ensures (forall x :: x in xs ==> g(x).Some?) ==> |MapFilter(xs, g)| == |xs|
  {
    if xs != [] {
      MapFilterLength(xs[1..], g);
    }
  }

  lemma EmptySequence<T>(s: seq<T>)
    ensures s == [] <==> forall x :: x !in s
  {
    if s != [] {
      assert s[0] in s;
    }
  }

  predicate NoDuplicates<T(==)>(xs: seq<T>) {
    forall i, j | 0 <= i < j < |xs| :: xs[i] != xs[j]
  }

  lemma NoDuplicatesTail<T>(xs: seq<T>)
    requires xs != [] && NoDuplicates(xs)
    ensures NoDuplicates(xs[1..]) && xs[0] !in xs[1..]
  {}

  /** A sequence has no duplicates exactly when every element counts once. */
  lemma {:induction false} NoDuplicatesCount<T>(xs: seq<T>)
    ensures NoDuplicates(xs) <==> forall x :: x in xs ==> multiset(xs)[x] == 1
  {
    if xs != [] {
      var x, rest := xs[0], xs[1..];
      assert xs == [x] + rest;
      assert forall y :: multiset(xs)[y] == multiset(rest)[y] + (if y == x then 1 else 0);
      NoDuplicatesCount(rest);
      assert NoDuplicates(xs) <==> x !in rest && NoDuplicates(rest) by {
        if x !in rest && NoDuplicates(rest) {
          forall i, j | 0 <= i < j < |xs|
            ensures xs[i] != xs[j]
          {
            assert xs[j] == rest[j - 1];
          }
        } else if NoDuplicates(xs) {
          NoDuplicatesTail(xs);
        }
      }
      assert x in rest <==> x in multiset(rest);
    }
  }

  /** Duplicate-free sequences with the same elements are permutations of each other. */
  lemma SameElements<T>(xs: seq<T>, ys: seq<T>)
    requires NoDuplicates(xs) && NoDuplicates(ys)
    requires forall x :: x in xs <==> x in ys
    ensures multiset(xs) == multiset(ys)
  {
    NoDuplicatesCount(xs);
    NoDuplicatesCount(ys);
    forall x
      ensures multiset(xs)[x] == multiset(ys)[x]
    {
      if x in xs {
        assert x in ys;
      } else {
        assert x !in ys;
        assert x !in multiset(xs) && x !in multiset(ys);
      }
    }
  }

  lemma PermutationNoDuplicates<T>(xs: seq<T>, ys: seq<T>)
    requires multiset(xs) == multiset(ys) && NoDuplicates(xs)
    ensures NoDuplicates(ys)
  {
    NoDuplicatesCount(xs);
    NoDuplicatesCount(ys);
    forall y | y in ys
      ensures multiset(ys)[y] == 1
    {
      assert y in multiset(xs);
    }
  }

  lemma PermutationElements<T>(xs: seq<T>, ys: seq<T>)
    requires multiset(xs) == multiset(ys)
    ensures |xs| == |ys|
    ensures forall x :: x in xs <==> x in ys
  {
    assert |multiset(xs)| == |multiset(ys)|;
    forall x
      ensures x in xs <==> x in ys
    {
      assert x in xs <==> x in multiset(xs);
      assert x in ys <==> x in multiset(ys);
    }
  }
}
