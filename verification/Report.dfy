/** Report rows and their order. */
module Report {
  import opened DagIndex
  import opened Model
  import opened Ordering
  import opened Policy
  import opened Refresh
  import opened SearchSpec
  import opened Sequences
  import opened Text
  import opened Wrappers

  // ---------- the rows ----------

  datatype MatchRow = MatchRow(
    term: string, matchType: string, bucket: string, path: string, uri: string,
    exactLines: string, partialLines: string, partialMatches: string, metadata: DagMetadata)

  datatype FilenameRow = FilenameRow(
    term: string, matchType: string, fileName: string, bucket: string, path: string,
    created: string, updated: string, size: nat, uri: string)

  const TEXT_LIMIT: nat := 32000

  /** `_excel_text`. */
  function ExcelText(text: string): (r: string)
    ensures |r| <= TEXT_LIMIT
  {
    if |text| <= TEXT_LIMIT then text else text[..TEXT_LIMIT - 14] + "\U{2026} [truncated]"
  }

  function DecimalText(n: nat): Option<string> { Some(Decimal(n)) }

  function NumberText(ns: seq<nat>): string {
    Join(", ", MapFilter(ns, DecimalText))
  }

  function Uri(bucket: string, path: string): string { "gs://" + bucket + "/" + path }

  function MatchType(exact: seq<nat>, partial: seq<nat>): string {
    if exact != [] then (if partial == [] then "exact" else "exact and partial") else "partial"
  }

  /** A row of the match sheet; `dag` answers for a path. */
  function MakeMatchRow(dag: string -> DagMetadata): (string, Row) -> MatchRow {
    (term: string, r: Row) =>
      StringLeIsTotalOrder();
      MatchRow(term, MatchType(r.exactLines, r.partialLines), r.bucket, r.path, Uri(r.bucket, r.path),
               ExcelText(NumberText(r.exactLines)), ExcelText(NumberText(r.partialLines)),
               ExcelText(Join(", ", SortedSet(r.partialTokens, StringLe))), dag(r.path))
  }

  function MakeFilenameRow(): (string, Row) -> FilenameRow {
    (term: string, r: Row) =>
      FilenameRow(term, Get(r.matchType, ""),
                  if r.fileName.Some? && r.fileName.value != "" then r.fileName.value else Basename(r.path),
                  r.bucket, r.path, Get(r.created, ""), Get(r.updated, ""), Get(r.size, 0), Uri(r.bucket, r.path))
  }

  // ---------- what the rows say ----------

  /** A row of the match sheet: which object it is about, which lines it names, and when it says exact or partial. */
  lemma MatchRowFields(dag: string -> DagMetadata, term: string, r: Row)
    ensures TotalOrder(StringLe) && MakeMatchRow(dag)(term, r).partialMatches ==
                                    ExcelText(Join(", ", SortedSet(r.partialTokens, StringLe)))
    ensures var x := MakeMatchRow(dag)(term, r);
      && x.term == term && x.bucket == r.bucket && x.path == r.path && x.uri == "gs://" + r.bucket + "/" + r.path
      && (x.matchType == "exact" <==> r.exactLines != [] && r.partialLines == [])
      && (x.matchType == "exact and partial" <==> r.exactLines != [] && r.partialLines != [])
      && (x.matchType == "partial" <==> r.exactLines == [])
      && x.exactLines == ExcelText(NumberText(r.exactLines)) && x.partialLines == ExcelText(NumberText(r.partialLines))
      && x.metadata == dag(r.path)
  {
    StringLeIsTotalOrder();
    var kinds := ["exact", "exact and partial", "partial"];
    assert |kinds[0]| == 5 && |kinds[1]| == 17 && |kinds[2]| == 7;
  }

  /** A row of the filename sheet. */
  lemma FilenameRowSays(term: string, r: Row)
    ensures var x := MakeFilenameRow()(term, r);
      && x.term == term && x.bucket == r.bucket && x.path == r.path && x.uri == "gs://" + r.bucket + "/" + r.path
      && (r.matchType.Some? ==> x.matchType == r.matchType.value)
      && (r.fileName.Some? && r.fileName.value != "" ==> x.fileName == r.fileName.value)
      && (r.created.Some? ==> x.created == r.created.value) && (r.updated.Some? ==> x.updated == r.updated.value)
      && (r.size.Some? ==> x.size == r.size.value)
  {}

  /** Line numbers are separated by a comma and a space. */
  lemma NumberTextGrows(ns: seq<nat>, n: nat)
    ensures NumberText([]) == "" && NumberText([n]) == Decimal(n)
    ensures ns != [] ==> NumberText(ns + [n]) == NumberText(ns) + ", " + Decimal(n)
  {
    var one: seq<nat> := [n];
    assert MapFilter(one, DecimalText) == AsSeq(DecimalText(n)) + MapFilter(one[1..], DecimalText);
    if ns != [] {
      MapFilterConcat(ns, one, DecimalText);
      MapFilterLength(ns, DecimalText);
      assert MapFilter(ns + one, DecimalText) == MapFilter(ns, DecimalText) + [Decimal(n)];
      JoinGrows(", ", MapFilter(ns, DecimalText), Decimal(n));
    }
  }

  lemma {:induction false} JoinGrows(sep: string, parts: seq<string>, last: string)
    requires parts != []
    ensures Join(sep, parts + [last]) == Join(sep, parts) + sep + last
  {
    if |parts| == 1 {
      assert (parts + [last])[1..] == [last];
    } else {
      assert (parts + [last])[1..] == parts[1..] + [last];
      JoinGrows(sep, parts[1..], last);
    }
  }

  /** Short texts are shown whole; long ones are cut and say so, within the limit of a cell. */
  lemma ExcelTextIs(text: string)
    ensures |text| <= 32000 ==> ExcelText(text) == text
    ensures |text| > 32000 ==>
              |ExcelText(text)| == 31999 && ExcelText(text) == text[..31986] + "\U{2026} [truncated]"
  {}

  // ---------- their order ----------

  datatype RowOrder = RowOrder(term: string, key: ObjectKey)

  predicate RowOrderLe(a: RowOrder, b: RowOrder) {
    if a.term == b.term then KeyLe(a.key, b.key) else StringLe(a.term, b.term)
  }

  lemma RowOrderLeIsTotalOrder()
    ensures TotalOrder(RowOrderLe)
  {
    KeyLeIsTotalOrder();
    StringLeIsTotalOrder();
    forall x, y
      ensures (RowOrderLe(x, y) || RowOrderLe(y, x)) && (RowOrderLe(x, y) && RowOrderLe(y, x) ==> x == y)
    {
      assert KeyLe(x.key, y.key) || KeyLe(y.key, x.key);
      assert StringLe(x.term, y.term) || StringLe(y.term, x.term);
    }
    forall x, y, z | RowOrderLe(x, y) && RowOrderLe(y, z)
      ensures RowOrderLe(x, z)
    {
      if x.term == y.term == z.term {
        assert KeyLe(x.key, y.key) && KeyLe(y.key, z.key);
      } else {
        StringLeTotal(x.term, x.term);
        StringLeTotal(x.term, y.term);
        StringLeTransitive(x.term, y.term, z.term);
      }
    }
  }

  function MatchOrder(lower: char -> char): MatchRow -> RowOrder {
    (r: MatchRow) => RowOrder(Fold(r.term, lower), ObjectKey(r.bucket, r.path))
  }

  function FilenameOrder(lower: char -> char): FilenameRow -> RowOrder {
    (r: FilenameRow) => RowOrder(Fold(r.term, lower), ObjectKey(r.bucket, r.path))
  }

  /** The rows of all terms before sorting. */
  function AllRows<R>(terms: seq<string>, results: Results, make: (string, Row) -> R): seq<R> {
    if terms == [] then [] else
      (if terms[0] in results then TermRows(terms[0], results[terms[0]], make) else []) +
      AllRows(terms[1..], results, make)
  }

  function TermRows<R>(term: string, rows: seq<Row>, make: (string, Row) -> R): seq<R> {
    MapFilter(rows, (r: Row) => Some(make(term, r)))
  }

  /** Rows are ordered by term, and then like keys. */
  lemma RowOrderLeIff(a: RowOrder, b: RowOrder)
    ensures RowOrderLe(a, b) <==>
            || (exists k: nat :: FirstDifference(a.term, b.term, k))
            || (a.term == b.term && KeyLe(a.key, b.key))
  {
    StringLeIff(a.term, b.term);
    if a.term == b.term {
      forall k: nat
        ensures !FirstDifference(a.term, b.term, k)
      {}
    }
  }

  /** `_match_rows` and the row list of `write_filename_report`. */
  function ReportRows<R>(terms: seq<string>, results: Results, make: (string, Row) -> R, order: R -> RowOrder): seq<R> {
    SortOn(AllRows(terms, results, make), order, RowOrderLe)
  }

  lemma TermRowsStep<R>(term: string, rows: seq<Row>, j: nat, make: (string, Row) -> R)
    requires j < |rows|
    ensures TermRows(term, rows[..j + 1], make) == TermRows(term, rows[..j], make) + [make(term, rows[j])]
  {
    var g := (r: Row) => Some(make(term, r));
    assert rows[..j + 1] == rows[..j] + [rows[j]];
    MapFilterConcat(rows[..j], [rows[j]], g);
    assert MapFilter([rows[j]], g) == AsSeq(g(rows[j])) + MapFilter([], g);
  }

  lemma {:induction false} AllRowsStep<R>(terms: seq<string>, i: nat, results: Results, make: (string, Row) -> R)
    requires i < |terms| && terms[i] in results
    ensures AllRows(terms[..i + 1], results, make) == AllRows(terms[..i], results, make) +
              TermRows(terms[i], results[terms[i]], make)
  {
    if i == 0 {
      assert terms[..1] == [terms[0]] && terms[..0] == [];
      assert AllRows([terms[0]], results, make) == TermRows(terms[0], results[terms[0]], make) +
          AllRows([], results, make);
    } else {
      assert terms[..i + 1][1..] == terms[1..][..i] && terms[..i][1..] == terms[1..][..i - 1];
      AllRowsStep(terms[1..], i - 1, results, make);
    }
  }

  /** The inner loop: the rows of one term. */
  method BuildTerm<R>(term: string, matches: seq<Row>, make: (string, Row) -> R) returns (rows: seq<R>)
    ensures rows == TermRows(term, matches, make)
  {
    rows := [];
    for j := 0 to |matches|
      invariant rows == TermRows(term, matches[..j], make)
    {
      TermRowsStep(term, matches, j, make);
      rows := rows + [make(term, matches[j])];
    }
    assert matches[..|matches|] == matches;
  }

  /** The loop over the terms, and the sort. */
  method BuildReport<R>(terms: seq<string>, results: Results, make: (string, Row) -> R, order: R -> RowOrder)
    returns (rows: seq<R>)
    requires forall t :: t in terms ==> t in results
    ensures rows == ReportRows(terms, results, make, order)
  {
    rows := [];
    for i := 0 to |terms|
      invariant rows == AllRows(terms[..i], results, make)
    {
      assert terms[i] in terms;
      AllRowsStep(terms, i, results, make);
      var more := BuildTerm(terms[i], results[terms[i]], make);
      rows := rows + more;
    }
    assert terms[..|terms|] == terms;
    rows := SortOn(rows, order, RowOrderLe);
  }

  lemma {:induction false} AllRowsHas<R>(terms: seq<string>, results: Results, make: (string, Row) -> R, t: string,
                                         r: Row)
    requires t in terms && t in results && r in results[t]
    ensures make(t, r) in AllRows(terms, results, make)
  {
    if terms[0] == t {
      var g := (x: Row) => Some(make(t, x));
      assert g(r) == Some(make(t, r));
      MapFilterIn(results[t], g, make(t, r));
    } else {
      AllRowsHas(terms[1..], results, make, t, r);
    }
  }

  lemma {:induction false} AllRowsCount<R>(terms: seq<string>, results: Results, make: (string, Row) -> R)
    ensures |AllRows(terms, results, make)| == TotalRows(terms, results)
  {
    if terms != [] {
      AllRowsCount(terms[1..], results, make);
      if terms[0] in results {
        MapFilterLength(results[terms[0]], (r: Row) => Some(make(terms[0], r)));
      }
    }
  }

  ghost predicate IsRowOf<R>(terms: seq<string>, results: Results, make: (string, Row) -> R, x: R) {
    exists t, r :: t in terms && t in results && r in results[t] && x == make(t, r)
  }

  /** The report has one row for every row of the results, and no others, in order. */
  lemma ReportComplete<R>(terms: seq<string>, results: Results, make: (string, Row) -> R, order: R -> RowOrder)
    ensures var rows := ReportRows(terms, results, make, order);
      && |rows| == TotalRows(terms, results) && SortedOn(rows, order, RowOrderLe)
      && (forall t, r :: t in terms && t in results && r in results[t] ==> make(t, r) in rows)
      && (forall x :: x in rows ==> IsRowOf(terms, results, make, x))
  {
    var all := AllRows(terms, results, make);
    RowOrderLeIsTotalOrder();
    SortOnSorted(all, order, RowOrderLe);
    AllRowsCount(terms, results, make);
    forall t, r | t in terms && t in results && r in results[t]
      ensures make(t, r) in SortOn(all, order, RowOrderLe)
    {
      AllRowsHas(terms, results, make, t, r);
      SortedFrom(all, order, make(t, r));
    }
    forall x | x in SortOn(all, order, RowOrderLe)
      ensures IsRowOf(terms, results, make, x)
    {
      SortedFrom(all, order, x);
      AllRowsIn(terms, results, make, x);
    }
  }

  lemma SortedFrom<R>(rows: seq<R>, order: R -> RowOrder, x: R)
    ensures x in SortOn(rows, order, RowOrderLe) <==> x in rows
  {
    PermutationElements(SortOn(rows, order, RowOrderLe), rows);
  }

  // ---------- the order is canonical ----------

  /** Rows carry their term and object, and look the same before and after a trip through the cache. */
  ghost predicate ValidMaker<R>(make: (string, Row) -> R, order: R -> RowOrder, lower: char -> char) {
    forall t, r ::
      make(t, Normal(r)) == make(t, r) && order(make(t, r)) == RowOrder(Fold(t, lower), r.Key())
  }

  lemma MatchMakerValid(dag: string -> DagMetadata, lower: char -> char)
    ensures ValidMaker(MakeMatchRow(dag), MatchOrder(lower), lower)
  {}

  lemma FilenameMakerValid(lower: char -> char)
    ensures ValidMaker(MakeFilenameRow(), FilenameOrder(lower), lower)
  {
    var make, order := MakeFilenameRow(), FilenameOrder(lower);
    forall t, r
      ensures make(t, Normal(r)) == make(t, r) && order(make(t, r)) == RowOrder(Fold(t, lower), r.Key())
    {
      if |Basename(r.path)| == 0 {
        assert Basename(r.path) == "";
      }
    }
  }

  /** Terms that differ ignoring case, each with at most one row per object. */
  ghost predicate DistinctResults(terms: seq<string>, results: Results, lower: char -> char) {
    && DistinctIgnoringCase(terms, lower)
    && (forall t :: t in terms ==> t in results && DistinctOn(results[t], RowKey))
  }

  lemma TermRowsSame<R>(term: string, a: seq<Row>, b: seq<Row>, make: (string, Row) -> R, order: R -> RowOrder,
                        lower: char -> char)
    requires ValidMaker(make, order, lower) && SameRows(a, b)
    ensures multiset(TermRows(term, a, make)) == multiset(TermRows(term, b, make))
  {
    var g := (r: Row) => Some(make(term, r));
    forall r
      ensures g(Normal(r)) == g(r)
    {}
    MapFilterFusion(a, NormalRow, g, g);
    MapFilterFusion(b, NormalRow, g, g);
    MapFilterPermutation(NormalRows(a), NormalRows(b), g);
  }

  lemma {:induction false} AllRowsSame<R>(terms: seq<string>, a: Results, b: Results, make: (string, Row) -> R,
                                          order: R -> RowOrder, lower: char -> char)
    requires ValidMaker(make, order, lower)
    requires forall t :: t in terms ==> t in a && t in b && SameRows(a[t], b[t])
    ensures multiset(AllRows(terms, a, make)) == multiset(AllRows(terms, b, make))
  {
    if terms != [] {
      TermRowsSame(terms[0], a[terms[0]], b[terms[0]], make, order, lower);
      AllRowsSame(terms[1..], a, b, make, order, lower);
    }
  }

  lemma {:induction false} AllRowsIn<R>(terms: seq<string>, results: Results, make: (string, Row) -> R, x: R)
    requires x in AllRows(terms, results, make)
    ensures exists t, r :: t in terms && t in results && r in results[t] && x == make(t, r)
  {
    if terms != [] {
      if terms[0] in results && x in TermRows(terms[0], results[terms[0]], make) {
        var g := (r: Row) => Some(make(terms[0], r));
        MapFilterIn(results[terms[0]], g, x);
        var r :| r in results[terms[0]] && g(r) == Some(x);
        assert terms[0] in terms;
      } else {
        AllRowsIn(terms[1..], results, make, x);
      }
    }
  }

  lemma {:induction false} TermRowsDistinct<R>(term: string, rows: seq<Row>, make: (string, Row) -> R,
                                               order: R -> RowOrder, lower: char -> char)
    requires ValidMaker(make, order, lower) && DistinctOn(rows, RowKey)
    ensures DistinctOn(TermRows(term, rows, make), order)
  {
    if rows != [] {
      assert forall i :: 0 <= i < |rows| - 1 ==> rows[1..][i] == rows[i + 1];
      TermRowsDistinct(term, rows[1..], make, order, lower);
      var rest := TermRows(term, rows[1..], make);
      forall k | 0 <= k < |rest|
        ensures order(rest[k]) != order(make(term, rows[0]))
      {
        var g := (r: Row) => Some(make(term, r));
        MapFilterIn(rows[1..], g, rest[k]);
        var r :| r in rows[1..] && g(r) == Some(rest[k]);
        var i :| 0 <= i < |rows| - 1 && rows[1..][i] == r;
        assert RowKey(rows[0]) != RowKey(rows[i + 1]);
      }
    }
  }

  lemma {:induction false} AllRowsDistinct<R>(terms: seq<string>, results: Results, make: (string, Row) -> R,
                                              order: R -> RowOrder, lower: char -> char)
    requires ValidMaker(make, order, lower) && DistinctResults(terms, results, lower)
    ensures DistinctOn(AllRows(terms, results, make), order)
  {
    if terms != [] {
      var first, rest := TermRows(terms[0], results[terms[0]], make), AllRows(terms[1..], results, make);
      assert forall i :: 0 <= i < |terms| - 1 ==> terms[1..][i] == terms[i + 1];
      AllRowsDistinct(terms[1..], results, make, order, lower);
      TermRowsDistinct(terms[0], results[terms[0]], make, order, lower);
      forall i, j | 0 <= i < |first| && 0 <= j < |rest|
        ensures order(first[i]) != order(rest[j])
      {
        var g := (r: Row) => Some(make(terms[0], r));
        MapFilterIn(results[terms[0]], g, first[i]);
        AllRowsIn(terms[1..], results, make, rest[j]);
        var t, r :| t in terms[1..] && t in results && r in results[t] && rest[j] == make(t, r);
        var k :| 0 <= k < |terms| - 1 && terms[1..][k] == t;
        assert Fold(terms[0], lower) != Fold(terms[k + 1], lower);
      }
    }
  }

  /**
   * The report is a function of the rows alone: results with the same rows, in any order and before or after a
   * trip through the cache, give the same sheet.
   */
  lemma ReportCanonical<R>(terms: seq<string>, a: Results, b: Results, make: (string, Row) -> R, order: R -> RowOrder,
                           lower: char -> char)
    requires ValidMaker(make, order, lower) && DistinctResults(terms, a, lower)
    requires forall t :: t in terms ==> t in b && SameRows(a[t], b[t])
    ensures ReportRows(terms, a, make, order) == ReportRows(terms, b, make, order)
  {
    RowOrderLeIsTotalOrder();
    AllRowsSame(terms, a, b, make, order, lower);
    AllRowsDistinct(terms, a, make, order, lower);
    SortOnCanonical(AllRows(terms, a, make), AllRows(terms, b, make), order, RowOrderLe);
  }
}
