/** Metadata-only search: object base names compared with the terms. */
module FilenameSearch {
  import opened Model
  import opened SearchSpec
  import opened SearchRows
  import opened Sequences
  import opened Text
  import opened Wrappers

  function Classify(name: string, term: string, casefold: char -> char): Option<string> {
    var foldedName, foldedTerm := Fold(name, casefold), Fold(term, casefold);
    if foldedName == foldedTerm then Some("exact")
    else if Contains(foldedName, foldedTerm) then Some("partial")
    else None
  }

  /** What a filename search contributes for one entry and one term. */
  function FilenameMatch(casefold: char -> char, e: Entry, term: string): Option<Row> {
    var name := Basename(e.path);
    match Classify(name, term, casefold)
    case None => None
    case Some(kind) =>
      Some(Row(e.bucket, e.path, e.contentHash, e.generation,
               Some(name), Some(kind), Some(e.created), Some(e.updated), Some(e.size), [], [], {}))
  }

  function FilenameMatcher(casefold: char -> char): Matcher {
    (e: Entry, t: string) => FilenameMatch(casefold, e, t)
  }

  /** The rows that one object contributes, per term. */
  function MatchesOf(e: Entry, terms: seq<string>, casefold: char -> char): (r: map<string, Row>)
    ensures forall t :: t in terms ==> FilenameMatcher(casefold)(e, t) == if t in r then Some(r[t]) else None
  {
    map t | t in terms && FilenameMatch(casefold, e, t).Some? :: FilenameMatch(casefold, e, t).value
  }

  /** The body of the loop over the entries: one object is compared with all terms. */
  method ConsumeName(entries: seq<Entry>, i: nat, terms: seq<string>, casefold: char -> char, before: Results,
                     countBefore: nat, limit: nat)
    returns (ok: bool, results: Results, count: nat)
    requires NoDuplicates(terms) && i < |entries|
    requires Collected(entries[..i], terms, FilenameMatcher(casefold), before, countBefore, limit)
    ensures ok ==> Collected(entries[..i + 1], terms, FilenameMatcher(casefold), results, count, limit)
    ensures !ok ==> TotalRows(terms, FullSearch(entries, terms, FilenameMatcher(casefold))) > limit
  {
    var e := entries[i];
    ghost var m := FilenameMatcher(casefold);
    var matches := MatchesOf(e, terms, casefold);
    assert entries[..i + 1] == entries[..i] + [e];
    ok, results, count := AppendRows(entries[..i], e, terms, m, matches, before, countBefore, limit);
    if !ok {
      assert entries == entries[..i + 1] + entries[i + 1..];
      TooManyAlready(entries[..i + 1], entries[i + 1..], entries, terms, m, limit);
    }
  }

  /** `search_filenames`: fails exactly when the rows exceed the limit. */
  method SearchFilenames(entries: seq<Entry>, terms: seq<string>, casefold: char -> char, limit: nat)
    returns (r: Result<Results, SearchError>)
    requires NoDuplicates(terms)
    ensures r.Ok? <==> TotalRows(terms, FullSearch(entries, terms, FilenameMatcher(casefold))) <= limit
    ensures r.Ok? ==> r.value == FullSearch(entries, terms, FilenameMatcher(casefold))
  {
    ghost var m := FilenameMatcher(casefold);
    var results: Results := map t | t in terms :: [];
    var count := 0;
    TotalEmpty(terms, results);
    assert results == Unsorted(entries[..0], terms, m);
    for i := 0 to |entries|
      invariant Collected(entries[..i], terms, m, results, count, limit)
    {
      var ok;
      ok, results, count := ConsumeName(entries, i, terms, casefold, results, count, limit);
      if !ok {
        return Err(TooManyRows);
      }
    }
    assert entries[..|entries|] == entries;
    results := SortRows(entries, terms, m, results, count, limit);
    r := Ok(results);
  }
}
