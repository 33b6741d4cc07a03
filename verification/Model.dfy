/** The records that pass between listing, searching, caching and reporting. */
module Model {
  import opened Ordering
  import opened Sequences
  import opened Wrappers

  datatype Mode = Literal | Regex

  datatype SearchTerm = SearchTerm(value: string, mode: Mode)

  function TermValue(t: SearchTerm): Option<string> { Some(t.value) }

  /** The term values in request order: the keys of every result dict. */
  function ValuesOf(terms: seq<SearchTerm>): seq<string> { MapFilter(terms, TermValue) }

  /** The term with a value; a value that is not there stands for a literal. */
  function TermOf(terms: seq<SearchTerm>, value: string): SearchTerm {
    if terms == [] then SearchTerm(value, Literal)
    else if terms[0].value == value then terms[0]
    else TermOf(terms[1..], value)
  }

  lemma {:induction false} ValuesAt(terms: seq<SearchTerm>)
    ensures |ValuesOf(terms)| == |terms|
    ensures forall i :: 0 <= i < |terms| ==> ValuesOf(terms)[i] == terms[i].value
  {
    if terms != [] {
      ValuesAt(terms[1..]);
    }
  }

  /** When values do not repeat, every term is the one found under its value. */
  lemma {:induction false} TermOfAt(terms: seq<SearchTerm>, i: nat)
    requires NoDuplicates(ValuesOf(terms)) && i < |terms|
    ensures TermOf(terms, terms[i].value) == terms[i]
  {
    ValuesAt(terms);
    if i > 0 {
      ValuesAt(terms[1..]);
      assert ValuesOf(terms)[0] != ValuesOf(terms)[i];
      NoDuplicatesTail(ValuesOf(terms));
      TermOfAt(terms[1..], i - 1);
    }
  }

  /** One listed object. Timestamps are opaque ISO strings, `""` when absent. */
  datatype Entry = Entry(
    bucket: string, path: string, contentHash: string, updated: string,
    size: nat, generation: nat, created: string)
  {
    function Key(): ObjectKey { ObjectKey(bucket, path) }
  }

  /**
   * One result row of one term. Content rows leave `fileName`, `matchType`, the timestamps and `size` out,
   * filename rows carry them.
   */
  datatype Row = Row(
    bucket: string, path: string, contentHash: string, generation: nat,
    fileName: Option<string>, matchType: Option<string>,
    created: Option<string>, updated: Option<string>, size: Option<nat>,
    exactLines: seq<nat>, partialLines: seq<nat>, partialTokens: set<string>)
  {
    function Key(): ObjectKey { ObjectKey(bucket, path) }
  }

  /** Results per term value. */
  type Results = map<string, seq<Row>>

  function EntryKey(e: Entry): ObjectKey { e.Key() }

  function RowKey(r: Row): ObjectKey { r.Key() }

  predicate UniqueKeys(entries: seq<Entry>) { DistinctOn(entries, EntryKey) }

  function Get<T>(o: Option<T>, otherwise: T): T {
    match o
    case None => otherwise
    case Some(x) => x
  }
}
