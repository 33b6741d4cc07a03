/** The content search: files are read concurrently and their rows collected as they complete. */
module SearchEngine {
  import opened ContentSearch
  import opened Model
  import opened LineScan
  import opened ParallelMap
  import opened SearchSpec
  import opened SearchRows
  import opened Sequences
  import opened Wrappers

  /** The bucket a content search reads from, and which downloads succeed. */
  datatype Source = Source(lang: Language, history: History, live: Live, readable: Entry -> bool)

  ghost function ContentMatcher(source: Source, terms: seq<SearchTerm>): Matcher {
    (e: Entry, v: string) => ContentMatch(source.lang, source.history, source.live, e, TermOf(terms, v))
  }

  lemma ContentMatcherKeyed(source: Source, terms: seq<SearchTerm>)
    ensures Keyed(ContentMatcher(source, terms))
  {
    var m := ContentMatcher(source, terms);
    forall e, v | m(e, v).Some?
      ensures m(e, v).value.Key() == e.Key()
    {}
  }

  /** What the callers of the search provide: terms whose values differ, and a regular-expression engine. */
  ghost predicate Searchable(source: Source, terms: seq<SearchTerm>) {
    ValidFinder(source.lang.alphabet) && NoDuplicates(ValuesOf(terms))
  }

  /** `_search_one`: downloads one object and searches its text. */
  method SearchOne(source: Source, e: Entry, terms: seq<SearchTerm>) returns (r: Result<map<string, Row>, SearchError>)
    requires Searchable(source, terms)
    ensures r.Ok? <==> source.readable(e)
    ensures r.Ok? ==> forall v :: v in ValuesOf(terms) ==>
              ContentMatcher(source, terms)(e, v) == if v in r.value then Some(r.value[v]) else None
  {
    if !source.readable(e) {
      return Err(ReadFailed);
    }
    var found := SearchText(source.lang, ReadText(source.history, source.live, e), terms);
    r := Ok(map v | v in found :: ContentRow(e, found[v]));
  }

  lemma PickOneMore<T>(items: seq<T>, order: seq<nat>, i: nat)
    requires InRange(order, |items|) && i < |items|
    ensures InRange(order + [i], |items|) && Pick(items, order + [i]) == Pick(items, order) + [items[i]]
  {}

  /** The rows collected so far are those of the entries yielded in `order`, all of which could be read. */
  ghost predicate InProgress(source: Source, entries: seq<Entry>, order: seq<nat>, terms: seq<SearchTerm>,
                             results: Results, count: nat, limit: nat) {
    && InRange(order, |entries|)
    && (forall k :: 0 <= k < |order| ==> source.readable(entries[order[k]]))
    && Collected(Pick(entries, order), ValuesOf(terms), ContentMatcher(source, terms), results, count, limit)
  }

  /** The body of the loop over the futures: one result is consumed. */
  method Consume(source: Source, entries: seq<Entry>, ghost order: seq<nat>, i: nat, terms: seq<SearchTerm>,
                 before: Results, countBefore: nat, limit: nat)
    returns (error: Option<SearchError>, results: Results, count: nat)
    requires Searchable(source, terms) && i < |entries|
    requires InProgress(source, entries, order, terms, before, countBefore, limit)
    ensures error.None? ==> InProgress(source, entries, order + [i], terms, results, count, limit)
    ensures error == Some(ReadFailed) ==> !source.readable(entries[i])
    ensures error == Some(TooManyRows) ==>
              InRange(order + [i], |entries|) &&
              TotalRows(ValuesOf(terms),
                        Unsorted(Pick(entries, order + [i]), ValuesOf(terms), ContentMatcher(source, terms))) > limit
  {
    var e := entries[i];
    results, count := before, countBefore;
    var matches := SearchOne(source, e, terms);
    if matches.Err? {
      return Some(ReadFailed), results, count;
    }
    var ok;
    ok, results, count :=
      AppendRows(Pick(entries, order), e, ValuesOf(terms), ContentMatcher(source, terms), matches.value, results, count,
          limit);
    PickOneMore(entries, order, i);
    error := if ok then None else Some(TooManyRows);
  }

  lemma FailedEarly(source: Source, entries: seq<Entry>, order: seq<nat>, terms: seq<SearchTerm>, error: SearchError,
                    limit: nat)
    requires InRange(order, |entries|) && NoDuplicates(order) && order != []
    requires error == ReadFailed ==> !source.readable(entries[order[|order| - 1]])
    requires error == TooManyRows ==>
               TotalRows(ValuesOf(terms),
                   Unsorted(Pick(entries, order), ValuesOf(terms), ContentMatcher(source, terms))) > limit
    ensures !SearchSucceeds(entries, ValuesOf(terms), ContentMatcher(source, terms), source.readable, limit)
  {
    if error == ReadFailed {
      assert entries[order[|order| - 1]] in entries;
    } else {
      var rest := PickRest(entries, order);
      TooManyAlready(Pick(entries, order), rest, entries, ValuesOf(terms), ContentMatcher(source, terms), limit);
    }
  }

  lemma AllConsumed(source: Source, entries: seq<Entry>, order: seq<nat>, terms: seq<SearchTerm>,
                    results: Results, count: nat, limit: nat)
    requires InProgress(source, entries, order, terms, results, count, limit)
    requires UniqueKeys(entries) && NoDuplicates(order) && |order| == |entries|
    ensures forall e :: e in entries ==> source.readable(e)
    ensures FullSearch(entries, ValuesOf(terms), ContentMatcher(source, terms)) ==
            FullSearch(Pick(entries, order), ValuesOf(terms), ContentMatcher(source, terms))
  {
    PickAll(entries, order);
    PermutationElements(Pick(entries, order), entries);
    forall e | e in entries
      ensures source.readable(e)
    {
      assert e in Pick(entries, order);
    }
    ContentMatcherKeyed(source, terms);
    FullSearchCanonical(entries, Pick(entries, order), ValuesOf(terms), ContentMatcher(source, terms));
  }

  /** The loop over the futures, for every choice of completed futures that `wait` can make. */
  method CollectAll(source: Source, entries: seq<Entry>, terms: seq<SearchTerm>, maxWorkers: nat, limit: nat)
    returns (error: Option<SearchError>, results: Results, ghost order: seq<nat>, ghost count: nat)
    requires maxWorkers > 0 && Searchable(source, terms)
    ensures error.Some? ==> !SearchSucceeds(entries, ValuesOf(terms), ContentMatcher(source, terms), source.readable,
              limit)
    ensures error.None? ==> NoDuplicates(order) && |order| == |entries|
    ensures error.None? ==> InProgress(source, entries, order, terms, results, count, limit)
  {
    results, order, error := map v | v in ValuesOf(terms) :: [], [], None;
    var rows := 0;
    TotalEmpty(ValuesOf(terms), results);
    assert results == Unsorted([], ValuesOf(terms), ContentMatcher(source, terms));
    var futures := new BoundedParallelMap(|entries|, maxWorkers);
    while true
      invariant futures.Valid() && futures.size == |entries| && fresh(futures)
      invariant order == futures.yielded && error.None?
      invariant InProgress(source, entries, order, terms, results, rows, limit)
      decreases |entries| - |futures.yielded|
    {
      var step := futures.Advance();
      if step.None? {
        break;
      }
      error, results, rows := Consume(source, entries, order, step.value, terms, results, rows, limit);
      order := order + [step.value];
      if error.Some? {
        FailedEarly(source, entries, order, terms, error.value, limit);
        break;
      }
    }
    count := rows;
  }

  /**
   * Whatever futures complete first, the search fails exactly when some object cannot be read or the rows
   * exceed the limit, and otherwise returns the rows of a sequential search in report order.
   */
  method Search(source: Source, entries: seq<Entry>, terms: seq<SearchTerm>, maxWorkers: nat, limit: nat)
    returns (r: Result<Results, SearchError>)
    requires maxWorkers > 0 && UniqueKeys(entries)
    requires Searchable(source, terms)
    ensures r.Ok? <==> SearchSucceeds(entries, ValuesOf(terms), ContentMatcher(source, terms), source.readable, limit)
    ensures r.Ok? ==> r.value == FullSearch(entries, ValuesOf(terms), ContentMatcher(source, terms))
  {
    ghost var order, count;
    var error, results;
    error, results, order, count := CollectAll(source, entries, terms, maxWorkers, limit);
    if error.Some? {
      return Err(error.value);
    }
    AllConsumed(source, entries, order, terms, results, count, limit);
    results := SortRows(Pick(entries, order), ValuesOf(terms), ContentMatcher(source, terms), results, count, limit);
    r := Ok(results);
  }
}
