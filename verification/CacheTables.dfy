/** The cache tables and the statements that `BigQuerySearchCache` runs against them. */
module CacheTables {
  import opened Model
  import opened Refresh
  import opened Sequences
  import opened Wrappers

  datatype SearchType = Content | Filename

  /** What the query key is computed from. Equal keys stand for equal definitions. */
  datatype Definition = Definition(
    searchType: SearchType, project: string, roots: seq<(string, string)>, terms: seq<SearchTerm>,
    exclusions: Option<(seq<string>, seq<string>)>)

  function Values(d: Definition): seq<string> { ValuesOf(d.terms) }

  datatype RunStatus = Pending | Complete | Failed

  datatype RunRow = RunRow(definition: Definition, created: nat, status: RunStatus)

  datatype ManifestRow = ManifestRow(cacheId: CacheId, entry: Entry)

  datatype AccessRow = AccessRow(definition: Definition, cacheId: CacheId, reused: bool, refreshed: nat)

  /** Rows are only ever appended; only the status of a run changes. */
  datatype Tables = Tables(runs: map<CacheId, RunRow>, manifests: seq<ManifestRow>, results: seq<StoredRow>,
      access: seq<AccessRow>)

  // ---------- queries ----------

  function EntryIn(id: CacheId): ManifestRow -> Option<Entry> {
    (row: ManifestRow) => if row.cacheId == id then Some(row.entry) else None
  }

  function RowIn(id: CacheId, term: string): StoredRow -> Option<Row> {
    (row: StoredRow) => if row.cacheId == id && row.term == term then Some(Load(row)) else None
  }

  /** The manifest rows of one snapshot, in some order. */
  function ManifestOf(tables: Tables, id: CacheId): seq<Entry> { MapFilter(tables.manifests, EntryIn(id)) }

  /** The rows of one snapshot and term as `load_results` returns them, in some order. */
  function ResultsOf(tables: Tables, id: CacheId, term: string): seq<Row> { MapFilter(tables.results, RowIn(id, term)) }

  predicate IsComplete(tables: Tables, d: Definition, id: CacheId) {
    id in tables.runs && tables.runs[id].definition == d && tables.runs[id].status == Complete
  }

  /** `latest_completed_run`: ties between equal timestamps are broken arbitrarily. */
  predicate IsLatest(tables: Tables, d: Definition, id: CacheId) {
    IsComplete(tables, d, id) &&
    forall other | other in tables.runs :: IsComplete(tables, d, other) ==>
        tables.runs[other].created <= tables.runs[id].created
  }

  // ---------- statements ----------

  function InsertRun(tables: Tables, id: CacheId, d: Definition, now: nat): Tables {
    tables.(runs := tables.runs[id := RunRow(d, now, Pending)])
  }

  function InsertManifest(tables: Tables, id: CacheId, manifest: seq<Entry>): Tables {
    tables.(manifests := tables.manifests + ManifestRows(id, manifest))
  }

  function ManifestRows(id: CacheId, manifest: seq<Entry>): seq<ManifestRow> {
    MapFilter(manifest, (e: Entry) => Some(ManifestRow(id, e)))
  }

  function InsertResults(tables: Tables, id: CacheId, terms: seq<string>, results: Results): Tables {
    tables.(results := tables.results + Flatten(id, terms, results))
  }

  /** `flattened_results`: the rows of all terms, each under the id of the snapshot. */
  function Flatten(id: CacheId, terms: seq<string>, results: Results): seq<StoredRow> {
    if terms == [] then [] else
      (if terms[0] in results then TermRows(id, terms[0], results[terms[0]]) else []) + Flatten(id, terms[1..], results)
  }

  function TermRows(id: CacheId, term: string, rows: seq<Row>): seq<StoredRow> {
    MapFilter(rows, (r: Row) => Some(Store(id, term, r)))
  }

  function SetStatus(tables: Tables, id: CacheId, status: RunStatus): Tables {
    if id in tables.runs then tables.(runs := tables.runs[id := tables.runs[id].(status := status)]) else tables
  }

  // ---------- what a statement leaves in the tables ----------

  lemma {:induction false} ManifestRowsRead(id: CacheId, manifest: seq<Entry>, other: CacheId)
    ensures MapFilter(ManifestRows(id, manifest), EntryIn(other)) == if other == id then manifest else []
  {
    if manifest != [] {
      ManifestRowsRead(id, manifest[1..], other);
      var make := (e: Entry) => Some(ManifestRow(id, e));
      assert ManifestRows(id, manifest) == [ManifestRow(id, manifest[0])] + ManifestRows(id, manifest[1..]);
      MapFilterConcat([ManifestRow(id, manifest[0])], ManifestRows(id, manifest[1..]), EntryIn(other));
    }
  }

  lemma InsertManifestReads(tables: Tables, id: CacheId, manifest: seq<Entry>, other: CacheId)
    ensures ManifestOf(InsertManifest(tables, id, manifest), other) ==
            ManifestOf(tables, other) + if other == id then manifest else []
  {
    MapFilterConcat(tables.manifests, ManifestRows(id, manifest), EntryIn(other));
    ManifestRowsRead(id, manifest, other);
  }

  lemma TermRowsRead(id: CacheId, term: string, rows: seq<Row>, other: CacheId, t: string)
    ensures MapFilter(TermRows(id, term, rows), RowIn(other, t)) ==
            if other == id && t == term then NormalRows(rows) else []
  {
    var make := (r: Row) => Some(Store(id, term, r));
    if other == id && t == term {
      forall r
        ensures RowIn(other, t)(Store(id, term, r)) == NormalRow(r)
      {
        StoreLoad(id, term, r);
      }
      MapFilterFusion(rows, make, RowIn(other, t), NormalRow);
    } else {
      var nothing := (r: Row) => if false then Some(Normal(r)) else None;
      MapFilterFusion(rows, make, RowIn(other, t), nothing);
      EmptyFilter(rows, nothing);
    }
  }

  lemma {:induction false} EmptyFilter<T, U>(xs: seq<T>, g: T -> Option<U>)
    requires forall x :: x in xs ==> g(x).None?
    ensures MapFilter(xs, g) == []
  {
    if xs != [] {
      EmptyFilter(xs[1..], g);
    }
  }

  lemma {:induction false} FlattenRead(id: CacheId, terms: seq<string>, results: Results, other: CacheId, t: string)
    requires NoDuplicates(terms)
    ensures MapFilter(Flatten(id, terms, results), RowIn(other, t)) ==
            if other == id && t in terms && t in results then NormalRows(results[t]) else []
  {
    if terms != [] {
      NoDuplicatesTail(terms);
      FlattenRead(id, terms[1..], results, other, t);
      var first := if terms[0] in results then TermRows(id, terms[0], results[terms[0]]) else [];
      MapFilterConcat(first, Flatten(id, terms[1..], results), RowIn(other, t));
      if terms[0] in results {
        TermRowsRead(id, terms[0], results[terms[0]], other, t);
      }
    }
  }

  /** Inserted results read back as the normalised rows of their snapshot, and touch no other. */
  lemma InsertResultsReads(tables: Tables, id: CacheId, terms: seq<string>, results: Results, other: CacheId, t: string)
    requires NoDuplicates(terms)
    ensures ResultsOf(InsertResults(tables, id, terms, results), other, t) ==
            ResultsOf(tables, other, t) +
            if other == id && t in terms && t in results then NormalRows(results[t]) else []
  {
    MapFilterConcat(tables.results, Flatten(id, terms, results), RowIn(other, t));
    FlattenRead(id, terms, results, other, t);
  }
}
