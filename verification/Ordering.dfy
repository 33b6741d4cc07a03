/** Orders on strings and object keys, and `sorted(xs, key=...)`. */
module Ordering {
  import opened Sequences

  ghost predicate Connex<K(!new)>(le: (K, K) -> bool) {
    forall x, y :: le(x, y) || le(y, x)
  }

  ghost predicate Antisymmetric<K(!new)>(le: (K, K) -> bool) {
    forall x, y :: le(x, y) && le(y, x) ==> x == y
  }

  ghost predicate Transitive<K(!new)>(le: (K, K) -> bool) {
    forall x, y, z :: le(x, y) && le(y, z) ==> le(x, z)
  }

  ghost predicate TotalOrder<K(!new)>(le: (K, K) -> bool) {
    Connex(le) && Antisymmetric(le) && Transitive(le)
  }

  /** Lexicographic order, as Python compares strings. */
  predicate StringLe(a: string, b: string) {
    a == [] || (b != [] && (a[0] < b[0] || (a[0] == b[0] && StringLe(a[1..], b[1..]))))
  }

  /** The strings agree before `k`, where the first ends or has the smaller character. */
  ghost predicate FirstDifference(a: string, b: string, k: nat) {
    && k <= |a| && k < |b| && (forall i :: 0 <= i < k ==> a[i] == b[i])
    && (k < |a| ==> a[k] < b[k])
  }

  /**
   * A string is smaller than another exactly when it is smaller at the first place where they differ, or ends
   * there.
   */
  lemma {:induction false} StringLeIff(a: string, b: string)
    ensures StringLe(a, b) <==> a == b || exists k: nat :: FirstDifference(a, b, k)
  {
    if a != [] && b != [] && a[0] == b[0] {
      StringLeIff(a[1..], b[1..]);
      assert a == [a[0]] + a[1..] && b == [b[0]] + b[1..];
      if k: nat :| FirstDifference(a[1..], b[1..], k) {
        DifferenceOneOn(a, b, k);
      }
      if k: nat :| FirstDifference(a, b, k) {
        assert k > 0;
        DifferenceOneBack(a, b, k);
      }
    } else if a == [] && b != [] {
      assert FirstDifference(a, b, 0);
    } else if a != [] && b != [] && a[0] < b[0] {
      assert FirstDifference(a, b, 0);
    }
  }

  lemma DifferenceOneOn(a: string, b: string, k: nat)
    requires a != [] && b != [] && a[0] == b[0] && FirstDifference(a[1..], b[1..], k)
    ensures FirstDifference(a, b, k + 1)
  {
    forall i | 0 <= i < k + 1
      ensures a[i] == b[i]
    {
      if i > 0 {
        assert a[1..][i - 1] == b[1..][i - 1];
      }
    }
  }

  lemma DifferenceOneBack(a: string, b: string, k: nat)
    requires a != [] && b != [] && k > 0 && FirstDifference(a, b, k)
    ensures FirstDifference(a[1..], b[1..], k - 1)
  {}

  lemma {:induction false} StringLeTotal(a: string, b: string)
    ensures StringLe(a, b) || StringLe(b, a)
    ensures StringLe(a, b) && StringLe(b, a) ==> a == b
  {
    if a != [] && b != [] {
      assert a == [a[0]] + a[1..] && b == [b[0]] + b[1..];
      StringLeTotal(a[1..], b[1..]);
    }
  }

  lemma {:induction false} StringLeTransitive(a: string, b: string, c: string)
    requires StringLe(a, b) && StringLe(b, c)
    ensures StringLe(a, c)
  {
    if a != [] && a[0] == b[0] && b[0] == c[0] {
      StringLeTransitive(a[1..], b[1..], c[1..]);
    }
  }

  lemma StringLeIsTotalOrder()
    ensures TotalOrder(StringLe)
  {
    forall x, y
      ensures (StringLe(x, y) || StringLe(y, x)) && (StringLe(x, y) && StringLe(y, x) ==> x == y)
    {
      StringLeTotal(x, y);
    }
    forall x, y, z | StringLe(x, y) && StringLe(y, z)
      ensures StringLe(x, z)
    {
      StringLeTransitive(x, y, z);
    }
  }

  /** The `(bucket, path)` pair that identifies an object; pairs compare like tuples. */
  datatype ObjectKey = ObjectKey(bucket: string, path: string)

  predicate KeyLe(a: ObjectKey, b: ObjectKey) {
    if a.bucket == b.bucket then StringLe(a.path, b.path) else StringLe(a.bucket, b.bucket)
  }

  /** Keys are ordered by bucket first, and within a bucket by path. */
  lemma KeyLeIff(a: ObjectKey, b: ObjectKey)
    ensures KeyLe(a, b) <==>
            || a == b
            || (exists k: nat :: FirstDifference(a.bucket, b.bucket, k))
            || (a.bucket == b.bucket && exists k: nat :: FirstDifference(a.path, b.path, k))
  {
    StringLeIff(a.bucket, b.bucket);
    StringLeIff(a.path, b.path);
    if a.bucket == b.bucket {
      forall k: nat
        ensures !FirstDifference(a.bucket, b.bucket, k)
      {}
    }
  }

  lemma KeyLeIsTotalOrder()
    ensures TotalOrder(KeyLe)
  {
    StringLeIsTotalOrder();
    forall x, y
      ensures (KeyLe(x, y) || KeyLe(y, x)) && (KeyLe(x, y) && KeyLe(y, x) ==> x == y)
    {
      StringLeTotal(x.bucket, y.bucket);
      StringLeTotal(x.path, y.path);
    }
    forall x, y, z | KeyLe(x, y) && KeyLe(y, z)
      ensures KeyLe(x, z)
    {
      if x.bucket == y.bucket == z.bucket {
        StringLeTransitive(x.path, y.path, z.path);
      } else {
        StringLeTotal(x.bucket, x.bucket);
        StringLeTotal(x.bucket, y.bucket);
        StringLeTransitive(x.bucket, y.bucket, z.bucket);
      }
    }
  }

  ghost predicate SortedOn<T, K>(xs: seq<T>, key: T -> K, le: (K, K) -> bool) {
    forall i, j :: 0 <= i < j < |xs| ==> le(key(xs[i]), key(xs[j]))
  }

  function Insert<T, K>(x: T, xs: seq<T>, key: T -> K, le: (K, K) -> bool): (r: seq<T>)
    ensures multiset(r) == multiset{x} + multiset(xs)
  {
    if xs == [] || le(key(x), key(xs[0])) then [x] + xs
    else
      assert xs == [xs[0]] + xs[1..];
      [xs[0]] + Insert(x, xs[1..], key, le)
  }

  /** `sorted(xs, key=key)`: stable, and a permutation of its argument. */
  function SortOn<T, K>(xs: seq<T>, key: T -> K, le: (K, K) -> bool): (r: seq<T>)
    ensures multiset(r) == multiset(xs)
  {
    if xs == [] then []
    else
      assert xs == [xs[0]] + xs[1..];
      Insert(xs[0], SortOn(xs[1..], key, le), key, le)
  }

  lemma {:induction false} InsertSorted<T, K(!new)>(x: T, xs: seq<T>, key: T -> K, le: (K, K) -> bool)
    requires TotalOrder(le) && SortedOn(xs, key, le)
    ensures SortedOn(Insert(x, xs, key, le), key, le)
  {
    if xs != [] && !le(key(x), key(xs[0])) {
      var rest := Insert(x, xs[1..], key, le);
      InsertSorted(x, xs[1..], key, le);
      forall j | 0 <= j < |rest|
        ensures le(key(xs[0]), key(rest[j]))
      {
        assert rest[j] in multiset(rest);
        assert rest[j] == x || rest[j] in xs[1..];
      }
    }
  }

  lemma {:induction false} SortOnSorted<T, K(!new)>(xs: seq<T>, key: T -> K, le: (K, K) -> bool)
    requires TotalOrder(le)
    ensures SortedOn(SortOn(xs, key, le), key, le)
    ensures |SortOn(xs, key, le)| == |xs|
    ensures forall x :: x in SortOn(xs, key, le) <==> x in xs
  {
    PermutationElements(SortOn(xs, key, le), xs);
    if xs != [] {
      SortOnSorted(xs[1..], key, le);
      InsertSorted(xs[0], SortOn(xs[1..], key, le), key, le);
    }
  }

  predicate DistinctOn<T, K(==)>(xs: seq<T>, key: T -> K) {
    forall i, j | 0 <= i < j < |xs| :: key(xs[i]) != key(xs[j])
  }

  /** Elements with equal keys are equal. */
  ghost predicate KeyDetermines<T, K(!new)>(xs: seq<T>, key: T -> K) {
    forall x, y :: x in xs && y in xs && key(x) == key(y) ==> x == y
  }

  lemma SamePlace<T, K>(xs: seq<T>, key: T -> K, i: nat, j: nat)
    requires DistinctOn(xs, key) && i < |xs| && j < |xs| && key(xs[i]) == key(xs[j])
    ensures i == j
  {}

  lemma DistinctDetermines<T, K(!new)>(xs: seq<T>, key: T -> K)
    requires DistinctOn(xs, key)
    ensures KeyDetermines(xs, key)
  {
    forall x, y | x in xs && y in xs && key(x) == key(y)
      ensures x == y
    {
      var i :| 0 <= i < |xs| && xs[i] == x;
      var j :| 0 <= j < |xs| && xs[j] == y;
      SamePlace(xs, key, i, j);
    }
  }

  lemma SortedHeads<T, K(!new)>(xs: seq<T>, ys: seq<T>, key: T -> K, le: (K, K) -> bool)
    requires Connex(le) && Antisymmetric(le)
    requires SortedOn(xs, key, le) && SortedOn(ys, key, le)
    requires xs != [] && multiset(xs) == multiset(ys)
    requires KeyDetermines(xs, key)
    ensures ys != [] && ys[0] == xs[0]
  {
    PermutationElements(xs, ys);
    assert ys[0] in xs && xs[0] in ys;
    var j :| 0 <= j < |xs| && xs[j] == ys[0];
    var i :| 0 <= i < |ys| && ys[i] == xs[0];
    assert le(key(xs[0]), key(xs[j]));
    assert le(key(ys[0]), key(ys[i]));
  }

  lemma TailPermutation<T>(xs: seq<T>, ys: seq<T>)
    requires xs != [] && ys != [] && xs[0] == ys[0] && multiset(xs) == multiset(ys)
    ensures multiset(xs[1..]) == multiset(ys[1..])
  {
    assert xs == [xs[0]] + xs[1..] && ys == [ys[0]] + ys[1..];
    assert multiset(xs[1..]) == multiset(xs) - multiset{xs[0]};
    assert multiset(ys[1..]) == multiset(ys) - multiset{ys[0]};
  }

  /** A sorted sequence whose keys determine its elements is the only sorted permutation of them. */
  lemma {:induction false} SortedUnique<T, K(!new)>(xs: seq<T>, ys: seq<T>, key: T -> K, le: (K, K) -> bool)
    requires Connex(le) && Antisymmetric(le)
    requires SortedOn(xs, key, le) && SortedOn(ys, key, le)
    requires multiset(xs) == multiset(ys)
    requires KeyDetermines(xs, key)
    ensures xs == ys
  {
    if xs == [] {
      PermutationElements(xs, ys);
    } else {
      SortedHeads(xs, ys, key, le);
      TailPermutation(xs, ys);
      SortedUnique(xs[1..], ys[1..], key, le);
      assert xs == [xs[0]] + xs[1..] && ys == [ys[0]] + ys[1..];
    }
  }

  lemma DistinctPermutation<T, K>(xs: seq<T>, ys: seq<T>, key: T -> K)
    requires multiset(xs) == multiset(ys) && DistinctOn(xs, key)
    ensures DistinctOn(ys, key)
  {
    assert NoDuplicates(xs) by {
      forall i, j | 0 <= i < j < |xs|
        ensures xs[i] != xs[j]
      {
        assert key(xs[i]) != key(xs[j]);
      }
    }
    PermutationNoDuplicates(xs, ys);
    PermutationElements(xs, ys);
    forall i, j | 0 <= i < j < |ys|
      ensures key(ys[i]) != key(ys[j])
    {
      assert ys[i] in xs && ys[j] in xs;
      var a :| 0 <= a < |xs| && xs[a] == ys[i];
      var b :| 0 <= b < |xs| && xs[b] == ys[j];
      assert a != b;
    }
  }

  lemma DeterminesPermutation<T, K(!new)>(xs: seq<T>, ys: seq<T>, key: T -> K)
    requires multiset(xs) == multiset(ys) && KeyDetermines(xs, key)
    ensures KeyDetermines(ys, key)
  {
    PermutationElements(xs, ys);
  }

  /** Sorting on a key that determines the elements forgets the order of its input. */
  lemma SortOnDetermined<T, K(!new)>(xs: seq<T>, ys: seq<T>, key: T -> K, le: (K, K) -> bool)
    requires TotalOrder(le) && multiset(xs) == multiset(ys) && KeyDetermines(xs, key)
    ensures SortOn(xs, key, le) == SortOn(ys, key, le)
  {
    SortOnSorted(xs, key, le);
    SortOnSorted(ys, key, le);
    DeterminesPermutation(xs, SortOn(xs, key, le), key);
    SortedUnique(SortOn(xs, key, le), SortOn(ys, key, le), key, le);
  }

  /** Sorting on an injective key forgets the order of its input. */
  lemma SortOnCanonical<T, K(!new)>(xs: seq<T>, ys: seq<T>, key: T -> K, le: (K, K) -> bool)
    requires TotalOrder(le) && multiset(xs) == multiset(ys) && DistinctOn(xs, key)
    ensures SortOn(xs, key, le) == SortOn(ys, key, le)
  {
    DistinctDetermines(xs, key);
    SortOnDetermined(xs, ys, key, le);
  }

  predicate IsLeastOf<K>(m: K, s: set<K>, le: (K, K) -> bool) { m in s && forall x | x in s :: le(m, x) }

  lemma {:induction false} LeastExists<K(!new)>(s: set<K>, le: (K, K) -> bool) returns (m: K)
    requires s != {} && TotalOrder(le)
    ensures IsLeastOf(m, s, le)
    decreases |s|
  {
    var k :| k in s;
    m := k;
    if s != {k} {
      var n := LeastExists(s - {k}, le);
      m := if le(k, n) then k else n;
      assert forall x :: x in s ==> x == k || x in s - {k};
    }
  }

  function LeastOf<K(==, !new)>(s: set<K>, le: (K, K) -> bool): (m: K)
    requires s != {} && TotalOrder(le)
    ensures IsLeastOf(m, s, le)
  {
    assert exists m :: IsLeastOf(m, s, le) by { var m := LeastExists(s, le); }
    var m :| m in s && IsLeastOf(m, s, le);
    m
  }

  /** `sorted(s)` for a set. */
  function SortedSet<K(==, !new)>(s: set<K>, le: (K, K) -> bool): seq<K>
    requires TotalOrder(le)
  {
    if s == {} then [] else [LeastOf(s, le)] + SortedSet(s - {LeastOf(s, le)}, le)
  }

  lemma {:induction false} SortedSetProperties<K(!new)>(s: set<K>, le: (K, K) -> bool)
    requires TotalOrder(le)
    ensures forall x :: x in SortedSet(s, le) <==> x in s
    ensures NoDuplicates(SortedSet(s, le)) && |SortedSet(s, le)| == |s|
    ensures forall i, j :: 0 <= i < j < |SortedSet(s, le)| ==> le(SortedSet(s, le)[i], SortedSet(s, le)[j])
  {
    if s != {} {
      var m := LeastOf(s, le);
      var rest := SortedSet(s - {m}, le);
      SortedSetProperties(s - {m}, le);
      forall j | 0 <= j < |rest|
        ensures m != rest[j] && le(m, rest[j])
      {
        assert rest[j] in rest;
      }
    }
  }
}
