/** Collecting rows under the report limit, shared by both kinds of search. */
module SearchRows {
  import opened Model
  import opened Ordering
  import opened SearchSpec
  import opened Sequences
  import opened Wrappers

  /** The rows of some entries before they are sorted. */
  function Unsorted(entries: seq<Entry>, terms: seq<string>, m: Matcher): Results {
    map t | t in terms :: RowsFor(entries, t, m)
  }

  /** `results` holds the rows of exactly the entries done, and `count` of them within the limit. */
  ghost predicate Collected(done: seq<Entry>, terms: seq<string>, m: Matcher, results: Results, count: nat,
                            limit: nat) {
    results == Unsorted(done, terms, m) && count == TotalRows(terms, results) <= limit
  }

  lemma UnsortedTotalRows(entries: seq<Entry>, terms: seq<string>, m: Matcher)
    ensures TotalRows(terms, Unsorted(entries, terms, m)) == TotalRows(terms, FullSearch(entries, terms, m))
  {
    forall t | t in terms
      ensures |RowsFor(entries, t, m)| == |SortOn(RowsFor(entries, t, m), RowKey, KeyLe)|
    {
      PermutationElements(RowsFor(entries, t, m), SortOn(RowsFor(entries, t, m), RowKey, KeyLe));
    }
    TotalCongruence(terms, Unsorted(entries, terms, m), FullSearch(entries, terms, m));
  }

  /** Rows only accumulate: a part of the manifest that exceeds the limit makes the whole exceed it. */
  lemma TooManyAlready(some: seq<Entry>, rest: seq<Entry>, entries: seq<Entry>, terms: seq<string>, m: Matcher,
                       limit: nat)
    requires multiset(some + rest) == multiset(entries)
    requires TotalRows(terms, Unsorted(some, terms, m)) > limit
    ensures TotalRows(terms, FullSearch(entries, terms, m)) > limit
  {
    forall t | t in terms
      ensures |RowsFor(some, t, m)| <= |RowsFor(entries, t, m)|
    {
      RowsForConcat(some, rest, t, m);
      RowsForPermutation(some + rest, entries, t, m);
      PermutationElements(RowsFor(some + rest, t, m), RowsFor(entries, t, m));
    }
    TotalMonotone(terms, Unsorted(some, terms, m), Unsorted(entries, terms, m));
    UnsortedTotalRows(entries, terms, m);
  }

  /** While the rows of `e` are appended, the first `j` terms are one entry ahead. */
  ghost predicate Appending(done: seq<Entry>, e: Entry, terms: seq<string>, m: Matcher, j: nat, results: Results)
    requires j <= |terms|
  {
    && results.Keys == (set t | t in terms)
    && forall t :: t in terms ==> results[t] == RowsFor(if t in terms[..j] then done + [e] else done, t, m)
  }

  lemma RowsForOneMore(done: seq<Entry>, e: Entry, term: string, m: Matcher)
    ensures RowsFor(done + [e], term, m) == RowsFor(done, term, m) + AsSeq(m(e, term))
  {
    RowsForConcat(done, [e], term, m);
    var g := (x: Entry) => m(x, term);
    assert MapFilter([e], g) == AsSeq(g(e)) + MapFilter([], g);
  }

  lemma AppendingStep(done: seq<Entry>, e: Entry, terms: seq<string>, m: Matcher, j: nat, results: Results)
    requires NoDuplicates(terms) && j < |terms| && Appending(done, e, terms, m, j, results)
    ensures terms[j] in results
    ensures m(e, terms[j]).None? ==> Appending(done, e, terms, m, j + 1, results)
    ensures m(e, terms[j]).Some? ==>
              Appending(done, e, terms, m, j + 1, results[terms[j] := results[terms[j]] + [m(e, terms[j]).value]])
  {
    var t := terms[j];
    assert t in terms && t !in terms[..j];
    RowsForOneMore(done, e, t, m);
    AppendingOne(done, e, terms, m, j, results, results[t] + AsSeq(m(e, t)));
    if m(e, t).None? {
      assert results[t] + [] == results[t];
      assert results[t := results[t]] == results;
    }
  }

  lemma AppendingOne(done: seq<Entry>, e: Entry, terms: seq<string>, m: Matcher, j: nat, results: Results,
                     rows: seq<Row>)
    requires NoDuplicates(terms) && j < |terms| && Appending(done, e, terms, m, j, results)
    requires rows == RowsFor(done + [e], terms[j], m)
    ensures Appending(done, e, terms, m, j + 1, results[terms[j] := rows])
  {
    assert terms[..j + 1] == terms[..j] + [terms[j]];
    forall t | t in terms
      ensures results[terms[j] := rows][t] == RowsFor(if t in terms[..j + 1] then done + [e] else done, t, m)
    {
      if t != terms[j] {
        assert t in terms[..j + 1] <==> t in terms[..j];
      }
    }
  }

  lemma AppendingTooMany(done: seq<Entry>, e: Entry, terms: seq<string>, m: Matcher, j: nat, results: Results)
    requires j <= |terms| && Appending(done, e, terms, m, j, results)
    ensures TotalRows(terms, results) <= TotalRows(terms, Unsorted(done + [e], terms, m))
  {
    forall t | t in terms
      ensures |results[t]| <= |RowsFor(done + [e], t, m)|
    {
      RowsForOneMore(done, e, t, m);
    }
    TotalMonotone(terms, results, Unsorted(done + [e], terms, m));
  }

  /** The loop that appends the rows of one entry and stops when the limit is exceeded. */
  method AppendRows(ghost done: seq<Entry>, e: Entry, terms: seq<string>, ghost m: Matcher,
                    matches: map<string, Row>, before: Results, countBefore: nat, limit: nat)
    returns (ok: bool, results: Results, count: nat)
    requires NoDuplicates(terms)
    requires forall t :: t in terms ==> m(e, t) == if t in matches then Some(matches[t]) else None
    requires Collected(done, terms, m, before, countBefore, limit)
    ensures ok ==> Collected(done + [e], terms, m, results, count, limit)
    ensures !ok ==> TotalRows(terms, Unsorted(done + [e], terms, m)) > limit
  {
    ok, results, count := true, before, countBefore;
    for j := 0 to |terms|
      invariant Appending(done, e, terms, m, j, results)
      invariant count == TotalRows(terms, results) <= limit
    {
      var t := terms[j];
      assert t in terms;
      AppendingStep(done, e, terms, m, j, results);
      if t in matches {
        TotalAppend(terms, results, t, matches[t]);
        results := results[t := results[t] + [matches[t]]];
        count := count + 1;
        if count > limit {
          AppendingTooMany(done, e, terms, m, j + 1, results);
          return false, results, count;
        }
      }
    }
    assert terms[..|terms|] == terms;
    assert results == Unsorted(done + [e], terms, m);
  }

  /** `rows.sort(...)` for every term. */
  method SortRows(ghost entries: seq<Entry>, terms: seq<string>, ghost m: Matcher, collected: Results, ghost count: nat,
                  ghost limit: nat)
    returns (results: Results)
    requires Collected(entries, terms, m, collected, count, limit)
    ensures results == FullSearch(entries, terms, m)
    ensures TotalRows(terms, FullSearch(entries, terms, m)) <= limit
  {
    UnsortedTotalRows(entries, terms, m);
    results := map t | t in collected :: SortOn(collected[t], RowKey, KeyLe);
  }
}
