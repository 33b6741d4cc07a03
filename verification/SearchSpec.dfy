/** What a search of a manifest means, independently of how the work is scheduled. */
module SearchSpec {
  import opened Model
  import opened Ordering
  import opened Sequences
  import opened Wrappers

  /** The row, if any, that an entry contributes to a term. */
  type Matcher = (Entry, string) -> Option<Row>

  ghost predicate Keyed(m: Matcher) {
    forall e, t :: m(e, t).Some? ==> m(e, t).value.Key() == e.Key()
  }

  function RowsFor(entries: seq<Entry>, term: string, m: Matcher): seq<Row> {
    MapFilter(entries, (e: Entry) => m(e, term))
  }

  /** A complete search: per term the rows of all entries, sorted by object. */
  function FullSearch(entries: seq<Entry>, terms: seq<string>, m: Matcher): Results {
    map t | t in terms :: SortOn(RowsFor(entries, t, m), RowKey, KeyLe)
  }

  /** `sum(len(rows) for rows in results.values())`, summed in the order of the terms. */
  function TotalRows(terms: seq<string>, results: Results): nat {
    if terms == [] then 0
    else (if terms[0] in results then |results[terms[0]]| else 0) + TotalRows(terms[1..], results)
  }

  datatype SearchError = ReadFailed | TooManyRows

  /** A search succeeds iff every object can be read and the rows stay within the limit. */
  ghost predicate SearchSucceeds(entries: seq<Entry>, terms: seq<string>, m: Matcher, readable: Entry -> bool,
                                 limit: nat) {
    (forall e :: e in entries ==> readable(e)) && TotalRows(terms, FullSearch(entries, terms, m)) <= limit
  }

  lemma {:induction false} TotalCongruence(terms: seq<string>, a: Results, b: Results)
    requires forall t :: t in terms ==> t in a && t in b && |a[t]| == |b[t]|
    ensures TotalRows(terms, a) == TotalRows(terms, b)
  {
    if terms != [] {
      TotalCongruence(terms[1..], a, b);
    }
  }

  lemma {:induction false} TotalMonotone(terms: seq<string>, a: Results, b: Results)
    requires forall t :: t in terms ==> t in a && t in b && |a[t]| <= |b[t]|
    ensures TotalRows(terms, a) <= TotalRows(terms, b)
  {
    if terms != [] {
      TotalMonotone(terms[1..], a, b);
    }
  }

  lemma {:induction false} TotalAppend(terms: seq<string>, a: Results, t: string, row: Row)
    requires NoDuplicates(terms) && forall u :: u in terms ==> u in a
    requires t in a
    ensures TotalRows(terms, a[t := a[t] + [row]]) == TotalRows(terms, a) + if t in terms then 1 else 0
  {
    if terms != [] {
      NoDuplicatesTail(terms);
      if terms[0] == t {
        TotalCongruence(terms[1..], a, a[t := a[t] + [row]]);
      } else {
        TotalAppend(terms[1..], a, t, row);
      }
    }
  }

  lemma {:induction false} TotalEmpty(terms: seq<string>, results: Results)
    requires forall t :: t in terms ==> t in results && results[t] == []
    ensures TotalRows(terms, results) == 0
  {
    if terms != [] {
      TotalEmpty(terms[1..], results);
    }
  }

  /** Searching distributes over the parts of a manifest. */
  lemma RowsForConcat(a: seq<Entry>, b: seq<Entry>, term: string, m: Matcher)
    ensures RowsFor(a + b, term, m) == RowsFor(a, term, m) + RowsFor(b, term, m)
  {
    MapFilterConcat(a, b, (e: Entry) => m(e, term));
  }

  lemma RowsForPermutation(a: seq<Entry>, b: seq<Entry>, term: string, m: Matcher)
    requires multiset(a) == multiset(b)
    ensures multiset(RowsFor(a, term, m)) == multiset(RowsFor(b, term, m))
  {
    MapFilterPermutation(a, b, (e: Entry) => m(e, term));
  }

  lemma RowsForIn(entries: seq<Entry>, term: string, m: Matcher, r: Row)
    ensures r in RowsFor(entries, term, m) <==> exists e :: e in entries && m(e, term) == Some(r)
  {
    var g := (e: Entry) => m(e, term);
    MapFilterIn(entries, g, r);
    forall e
      ensures g(e) == m(e, term)
    {}
  }

  lemma {:induction false} RowsForDistinct(entries: seq<Entry>, term: string, m: Matcher)
    requires Keyed(m) && UniqueKeys(entries)
    ensures DistinctOn(RowsFor(entries, term, m), RowKey)
  {
    if entries != [] {
      var rest := RowsFor(entries[1..], term, m);
      assert UniqueKeys(entries[1..]) by {
        forall i, j | 0 <= i < j < |entries| - 1
          ensures EntryKey(entries[1..][i]) != EntryKey(entries[1..][j])
        {
          assert EntryKey(entries[i + 1]) != EntryKey(entries[j + 1]);
        }
      }
      RowsForDistinct(entries[1..], term, m);
      forall k | 0 <= k < |rest|
        ensures rest[k].Key() != entries[0].Key()
      {
        RowsForIn(entries[1..], term, m, rest[k]);
        var e :| e in entries[1..] && m(e, term) == Some(rest[k]);
        var i :| 0 <= i < |entries| - 1 && entries[1..][i] == e;
        assert EntryKey(entries[0]) != EntryKey(entries[i + 1]);
      }
    }
  }

  /** The result of a full search does not depend on the order of the manifest. */
  lemma FullSearchCanonical(a: seq<Entry>, b: seq<Entry>, terms: seq<string>, m: Matcher)
    requires Keyed(m) && UniqueKeys(a) && multiset(a) == multiset(b)
    ensures FullSearch(a, terms, m) == FullSearch(b, terms, m)
  {
    KeyLeIsTotalOrder();
    forall t | t in terms
      ensures SortOn(RowsFor(a, t, m), RowKey, KeyLe) == SortOn(RowsFor(b, t, m), RowKey, KeyLe)
    {
      RowsForDistinct(a, t, m);
      RowsForPermutation(a, b, t, m);
      SortOnCanonical(RowsFor(a, t, m), RowsFor(b, t, m), RowKey, KeyLe);
    }
  }
}
