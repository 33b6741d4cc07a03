/** Looking up DAG metadata by path, with a sorted index of reversed paths for suffix matches. */
module DagIndex {
  import opened Ordering
  import opened Text
  import opened Wrappers

  /** A table value; `NotANumber` is the missing number of the data frame, unequal even to itself. */
  datatype Cell = Cell(text: string) | NotANumber

  datatype DagMetadata = DagMetadata(dagId: string, isActive: Cell, lastExecuted: Cell)

  const NO_METADATA := DagMetadata("", Cell(""), Cell(""))

  type Lookup = map<string, DagMetadata>

  // ---------- the linear specification ----------

  /** `p` is a proper suffix of `key` that starts after a slash. */
  predicate IsSegmentSuffix(p: string, key: string) { EndsWith(key, "/" + p) }

  predicate IsCandidate(values: Lookup, key: string, p: string) {
    p in values && (IsSegmentSuffix(p, key) || IsSegmentSuffix(key, p))
  }

  ghost predicate OnlyCandidate(values: Lookup, key: string, p: string) {
    IsCandidate(values, key, p) && forall q :: IsCandidate(values, key, q) ==> q == p
  }

  /** The metadata of the only candidate; nothing when there is none or more than one. */
  ghost function UniqueSuffix(values: Lookup, key: string): DagMetadata {
    if p :| OnlyCandidate(values, key, p) then values[p] else NO_METADATA
  }

  // ---------- prefix ranges in a sorted sequence ----------

  predicate StrictlyBelow(a: string, b: string) { StringLe(a, b) && a != b }

  ghost predicate Sorted(paths: seq<string>) {
    forall i, j :: 0 <= i < j < |paths| ==> StrictlyBelow(paths[i], paths[j])
  }

  lemma {:induction false} PrefixIsLess(p: string, s: string)
    requires p <= s
    ensures StringLe(p, s)
  {
    if p != [] {
      assert p[1..] <= s[1..];
      PrefixIsLess(p[1..], s[1..]);
    }
  }

  /** Between a prefix and a string that has it, every string has it. */
  lemma {:induction false} PrefixContiguous(p: string, a: string, b: string)
    requires StringLe(p, a) && StringLe(a, b) && p <= b
    ensures p <= a
  {
    if p != [] {
      assert p == [p[0]] + p[1..] && a == [a[0]] + a[1..] && b == [b[0]] + b[1..];
      assert p[1..] <= b[1..];
      PrefixContiguous(p[1..], a[1..], b[1..]);
    }
  }

  /** `bisect_left`. */
  method BisectLeft(paths: seq<string>, x: string) returns (lo: nat)
    requires Sorted(paths)
    ensures lo <= |paths|
    ensures forall k :: 0 <= k < lo ==> StrictlyBelow(paths[k], x)
    ensures forall k :: lo <= k < |paths| ==> StringLe(x, paths[k])
  {
    lo := 0;
    var hi := |paths|;
    while lo < hi
      invariant lo <= hi <= |paths|
      invariant forall k :: 0 <= k < lo ==> StrictlyBelow(paths[k], x)
      invariant forall k :: hi <= k < |paths| ==> StringLe(x, paths[k])
    {
      var mid := (lo + hi) / 2;
      if StrictlyBelow(paths[mid], x) {
        BelowLeft(paths, mid, x);
        lo := mid + 1;
      } else {
        AboveRight(paths, mid, x);
        hi := mid;
      }
    }
  }

  lemma BelowLeft(paths: seq<string>, mid: nat, x: string)
    requires Sorted(paths) && mid < |paths| && StrictlyBelow(paths[mid], x)
    ensures forall k :: 0 <= k <= mid ==> StrictlyBelow(paths[k], x)
  {
    forall k | 0 <= k < mid
      ensures StrictlyBelow(paths[k], x)
    {
      StringLeTransitive(paths[k], paths[mid], x);
      StringLeTotal(paths[k], paths[mid]);
    }
  }

  lemma AboveRight(paths: seq<string>, mid: nat, x: string)
    requires Sorted(paths) && mid < |paths| && !StrictlyBelow(paths[mid], x)
    ensures forall k :: mid <= k < |paths| ==> StringLe(x, paths[k])
  {
    StringLeTotal(paths[mid], x);
    StringLeTotal(x, x);
    forall k | mid < k < |paths|
      ensures StringLe(x, paths[k])
    {
      StringLeTransitive(x, paths[mid], paths[k]);
    }
  }

  /** The strings with a given prefix are the ones from the insertion point on, without a gap. */
  lemma PrefixRange(paths: seq<string>, x: string, lo: nat, k: nat)
    requires Sorted(paths) && lo <= |paths| && k < |paths| && x <= paths[k]
    requires forall i :: 0 <= i < lo ==> StrictlyBelow(paths[i], x)
    requires forall i :: lo <= i < |paths| ==> StringLe(x, paths[i])
    ensures lo <= k && forall i :: lo <= i <= k ==> x <= paths[i]
  {
    PrefixIsLess(x, paths[k]);
    if k < lo {
      StringLeTotal(paths[k], x);
    }
    forall i | lo <= i < k
      ensures x <= paths[i]
    {
      PrefixContiguous(x, paths[i], paths[k]);
    }
  }

  // ---------- the index ----------

  lemma ReverseSegment(key: string, p: string)
    ensures Reverse(key) + "/" <= Reverse(p) <==> IsSegmentSuffix(key, p)
  {
    assert Reverse("/" + key) == Reverse(key) + "/";
    ReversePrefix(p, "/" + key);
  }

  class DagLookup {
    const values: Lookup
    const reversedPaths: seq<string>
    const reversedMetadata: seq<DagMetadata>

    /** The index lists the reversed paths of the lookup in order, with their metadata. */
    ghost predicate Valid() {
      && Sorted(reversedPaths) && |reversedMetadata| == |reversedPaths|
      && (forall k :: 0 <= k < |reversedPaths| ==>
            Reverse(reversedPaths[k]) in values && reversedMetadata[k] == values[Reverse(reversedPaths[k])])
      && (forall p :: p in values ==> Reverse(p) in reversedPaths)
    }

    constructor (values: Lookup)
      ensures Valid() && this.values == values
    {
      StringLeIsTotalOrder();
      var reversed := set p | p in values :: Reverse(p);
      var paths := SortedSet(reversed, StringLe);
      SortedSetProperties(reversed, StringLe);
      forall k | 0 <= k < |paths|
        ensures Reverse(paths[k]) in values
      {
        assert paths[k] in paths;
        var p :| p in values && paths[k] == Reverse(p);
        ReverseInvolution(p);
      }
      this.values := values;
      reversedPaths := paths;
      reversedMetadata :=
        seq(|paths|, k requires 0 <= k < |paths| && Reverse(paths[k]) in values => values[Reverse(paths[k])]);
    }

    /** The paths whose reversal starts with `prefix` are those that have `key` as a segment suffix. */
    lemma IndexedSuffix(key: string, k: nat)
      requires Valid() && k < |reversedPaths|
      ensures Reverse(key) + "/" <= reversedPaths[k] <==> IsSegmentSuffix(key, Reverse(reversedPaths[k]))
    {
      ReverseInvolution(reversedPaths[k]);
      ReverseSegment(key, Reverse(reversedPaths[k]));
    }

    /** Where the paths that have `key` as a segment suffix stand in the index. */
    ghost predicate IsInsertionPoint(key: string, lo: nat) {
      && lo <= |reversedPaths|
      && (forall k :: 0 <= k < lo ==> StrictlyBelow(reversedPaths[k], Reverse(key) + "/"))
      && (forall k :: lo <= k < |reversedPaths| ==> StringLe(Reverse(key) + "/", reversedPaths[k]))
    }

    predicate HasPrefixAt(key: string, k: nat) {
      k < |reversedPaths| && Reverse(key) + "/" <= reversedPaths[k]
    }

    lemma IndexOf(p: string) returns (k: nat)
      requires Valid() && p in values
      ensures k < |reversedPaths| && Reverse(reversedPaths[k]) == p && reversedPaths[k] == Reverse(p)
    {
      ReverseInvolution(p);
      var i :| 0 <= i < |reversedPaths| && reversedPaths[i] == Reverse(p);
      k := i;
    }

    /** Every longer candidate is found from the insertion point on. */
    lemma LongerCandidate(key: string, lo: nat, p: string)
      requires Valid() && IsInsertionPoint(key, lo) && p in values && IsSegmentSuffix(key, p)
      ensures HasPrefixAt(key, lo)
      ensures !HasPrefixAt(key, lo + 1) ==> p == Reverse(reversedPaths[lo])
    {
      var k := IndexOf(p);
      LongerAt(key, lo, k, p);
    }

    lemma LongerAt(key: string, lo: nat, k: nat, p: string)
      requires Valid() && IsInsertionPoint(key, lo) && IsSegmentSuffix(key, p)
      requires k < |reversedPaths| && reversedPaths[k] == Reverse(p) && Reverse(reversedPaths[k]) == p
      ensures HasPrefixAt(key, lo)
      ensures !HasPrefixAt(key, lo + 1) ==> k == lo
    {
      ReverseSegment(key, p);
      var prefix := Reverse(key) + "/";
      PrefixRange(reversedPaths, prefix, lo, k);
      assert prefix <= reversedPaths[lo];
    }

    /** The body of the first loop: the suffix after position `n`, if a slash stands there. */
    method TrySuffix(key: string, n: nat, found: Option<DagMetadata>, ghost at: string)
      returns (ambiguous: bool, found': Option<DagMetadata>, ghost at': string)
      requires n < |key| && OneShorter(values, key, n, found, at)
      ensures ambiguous ==> UniqueSuffix(values, key) == NO_METADATA
      ensures !ambiguous ==> OneShorter(values, key, n + 1, found', at')
    {
      ambiguous, found', at' := false, found, at;
      if key[n] != '/' {
        ShorterSkip(values, key, n, found, at);
        return;
      }
      var suffix := key[n + 1..];
      ShorterStep(values, key, n, found, at);
      if suffix in values {
        ambiguous, found', at' := found.Some?, Some(values[suffix]), suffix;
      }
    }

    /** `unique_suffix_match`: a loop over the suffixes of the key, a bisection, and a look at one neighbour. */
    method UniqueSuffixMatch(key: string) returns (r: DagMetadata)
      requires Valid()
      ensures r == UniqueSuffix(values, key)
    {
      var found: Option<DagMetadata> := None;
      ghost var at := "";
      for index := 0 to |key|
        invariant OneShorter(values, key, index, found, at)
      {
        var ambiguous;
        ambiguous, found, at := TrySuffix(key, index, found, at);
        if ambiguous {
          return NO_METADATA;
        }
      }
      var index := BisectLeft(reversedPaths, Reverse(key) + "/");
      r := AnswerAt(key, index, found, at);
    }

    /** The longer candidates start at the insertion point; one neighbour tells whether there are two. */
    method AnswerAt(key: string, index: nat, found: Option<DagMetadata>, ghost at: string) returns (r: DagMetadata)
      requires Valid() && IsInsertionPoint(key, index) && OneShorter(values, key, |key|, found, at)
      ensures r == UniqueSuffix(values, key)
    {
      if HasPrefixAt(key, index) {
        if found.Some? {
          LongerAndShorter(key, index, found, at);
          return NO_METADATA;
        }
        if HasPrefixAt(key, index + 1) {
          TwoLonger(key, index);
          return NO_METADATA;
        }
        OnlyLonger(key, index, at);
        return reversedMetadata[index];
      }
      NothingLonger(key, index, found, at);
      r := if found.Some? then found.value else NO_METADATA;
    }

    lemma NothingLonger(key: string, lo: nat, found: Option<DagMetadata>, at: string)
      requires Valid() && IsInsertionPoint(key, lo) && OneShorter(values, key, |key|, found, at) &&
                !HasPrefixAt(key, lo)
      ensures UniqueSuffix(values, key) == if found.Some? then found.value else NO_METADATA
    {
      forall p | p in values
        ensures !IsSegmentSuffix(key, p)
      {
        if IsSegmentSuffix(key, p) {
          LongerCandidate(key, lo, p);
        }
      }
      OnlyShorter(values, key, found, at);
    }

    lemma LongerAndShorter(key: string, lo: nat, found: Option<DagMetadata>, at: string)
      requires Valid() && OneShorter(values, key, |key|, found, at) && HasPrefixAt(key, lo) && found.Some?
      ensures UniqueSuffix(values, key) == NO_METADATA
    {
      IndexedSuffix(key, lo);
      assert |at| < |key| < |Reverse(reversedPaths[lo])|;
      TwoCandidates(values, key, at, Reverse(reversedPaths[lo]));
    }

    lemma TwoLonger(key: string, lo: nat)
      requires Valid() && HasPrefixAt(key, lo) && HasPrefixAt(key, lo + 1)
      ensures UniqueSuffix(values, key) == NO_METADATA
    {
      IndexedSuffix(key, lo);
      IndexedSuffix(key, lo + 1);
      assert StrictlyBelow(reversedPaths[lo], reversedPaths[lo + 1]);
      ReverseInvolution(reversedPaths[lo]);
      ReverseInvolution(reversedPaths[lo + 1]);
      TwoCandidates(values, key, Reverse(reversedPaths[lo]), Reverse(reversedPaths[lo + 1]));
    }

    lemma OnlyLonger(key: string, lo: nat, at: string)
      requires Valid() && IsInsertionPoint(key, lo) && OneShorter(values, key, |key|, None, at)
      requires HasPrefixAt(key, lo) && !HasPrefixAt(key, lo + 1)
      ensures UniqueSuffix(values, key) == reversedMetadata[lo]
    {
      IndexedSuffix(key, lo);
      forall p | p in values && IsSegmentSuffix(key, p)
        ensures p == Reverse(reversedPaths[lo])
      {
        LongerCandidate(key, lo, p);
      }
      OneLonger(values, key, Reverse(reversedPaths[lo]), at);
    }
  }

  lemma NoShorter(values: Lookup, key: string, at: string)
    requires OneShorter(values, key, |key|, None, at)
    ensures forall p :: p in values ==> !IsSegmentSuffix(p, key)
  {
    forall p | p in values
      ensures !IsSegmentSuffix(p, key)
    {
      ShorterCandidate(values, key, p);
    }
  }

  lemma OneLonger(values: Lookup, key: string, q: string, at: string)
    requires OneShorter(values, key, |key|, None, at)
    requires q in values && IsSegmentSuffix(key, q)
    requires forall p :: p in values && IsSegmentSuffix(key, p) ==> p == q
    ensures UniqueSuffix(values, key) == values[q]
  {
    NoShorter(values, key, at);
    assert OnlyCandidate(values, key, q);
  }

  lemma OnlyShorter(values: Lookup, key: string, found: Option<DagMetadata>, at: string)
    requires OneShorter(values, key, |key|, found, at)
    requires forall p :: p in values ==> !IsSegmentSuffix(key, p)
    ensures UniqueSuffix(values, key) == if found.Some? then found.value else NO_METADATA
  {
    if found.None? {
      NoShorter(values, key, at);
    } else {
      forall p | IsCandidate(values, key, p)
        ensures p == at
      {
        ShorterCandidate(values, key, p);
      }
      assert OnlyCandidate(values, key, at);
    }
  }

  lemma TwoCandidates(values: Lookup, key: string, p: string, q: string)
    requires IsCandidate(values, key, p) && IsCandidate(values, key, q) && p != q
    ensures UniqueSuffix(values, key) == NO_METADATA
  {}

  // ---------- suffixes of the key ----------

  /** A lookup path that the key ends with, starting after a slash before position `n`. */
  predicate ShorterBelow(values: Lookup, key: string, n: nat, p: string) {
    p in values && IsSegmentSuffix(p, key) && |key| - |p| - 1 < n
  }

  /** After the slashes before `n` were tried: nothing was found, or the one path found. */
  ghost predicate OneShorter(values: Lookup, key: string, n: nat, found: Option<DagMetadata>, at: string) {
    match found
    case None => forall p :: !ShorterBelow(values, key, n, p)
    case Some(m) =>
      && ShorterBelow(values, key, n, at) && m == values[at]
      && forall p :: ShorterBelow(values, key, n, p) ==> p == at
  }

  lemma SuffixPosition(key: string, n: nat, p: string)
    requires n < |key|
    ensures IsSegmentSuffix(p, key) && |key| - |p| - 1 == n <==> key[n] == '/' && p == key[n + 1..]
  {
    if |key| - |p| - 1 == n {
      assert key[n..] == [key[n]] + key[n + 1..];
      assert ("/" + p)[0] == '/' && ("/" + p)[1..] == p;
    }
  }

  lemma ShorterNext(values: Lookup, key: string, n: nat, p: string)
    requires n < |key|
    ensures ShorterBelow(values, key, n + 1, p) <==>
            ShorterBelow(values, key, n, p) || (p in values && key[n] == '/' && p == key[n + 1..])
  {
    SuffixPosition(key, n, p);
  }

  /** All slashes of the key have been tried once every shorter candidate counts. */
  lemma ShorterCandidate(values: Lookup, key: string, p: string)
    ensures ShorterBelow(values, key, |key|, p) <==> p in values && IsSegmentSuffix(p, key)
  {}

  lemma ShorterSkip(values: Lookup, key: string, n: nat, found: Option<DagMetadata>, at: string)
    requires n < |key| && key[n] != '/' && OneShorter(values, key, n, found, at)
    ensures OneShorter(values, key, n + 1, found, at)
  {
    var next := n + 1;
    forall p
      ensures ShorterBelow(values, key, next, p) <==> ShorterBelow(values, key, n, p)
    {
      ShorterNext(values, key, n, p);
    }
  }

  lemma ShorterStep(values: Lookup, key: string, n: nat, found: Option<DagMetadata>, at: string)
    requires n < |key| && key[n] == '/' && OneShorter(values, key, n, found, at)
    ensures var p := key[n + 1..];
      && (p !in values ==> OneShorter(values, key, n + 1, found, at))
      && (p in values && found.None? ==> OneShorter(values, key, n + 1, Some(values[p]), p))
      && (p in values && found.Some? ==> UniqueSuffix(values, key) == NO_METADATA)
  {
    var p, next := key[n + 1..], n + 1;
    forall q
      ensures ShorterBelow(values, key, next, q) <==> ShorterBelow(values, key, n, q) || (q in values && q == p)
    {
      ShorterNext(values, key, n, q);
    }
    SuffixPosition(key, n, p);
    if p in values && found.Some? {
      TwoCandidates(values, key, p, at);
    }
  }
}
