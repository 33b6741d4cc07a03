/** Concurrent runs over the shared cache tables, with failures and crashes between any two statements. */
module CacheProtocol {
  import opened CacheTables
  import opened ContentSearch
  import opened Model
  import opened Refresh
  import opened SearchSpec
  import opened Sequences
  import opened Wrappers

  /** What a search contributes per entry and term, given the current bucket contents, and the row limit. */
  datatype Env = Env(contributes: (Live, Definition, Entry, string) -> Option<Row>, limit: nat)

  function MatcherAt(env: Env, live: Live, d: Definition): Matcher {
    (e: Entry, t: string) => env.contributes(live, d, e, t)
  }

  /** Rows carry the key of their entry, and entries with a generation are read pinned to it. */
  ghost predicate ValidEnv(env: Env) {
    && (forall live, d :: Keyed(MatcherAt(env, live, d)))
    && (forall now, later, d, e: Entry, t :: e.generation > 0 ==>
        env.contributes(now, d, e, t) == env.contributes(later, d, e, t))
  }

  /** What a listing returns: unique keys, and object generations, which are never 0. */
  predicate Listable(m: seq<Entry>) {
    UniqueKeys(m) && forall e | e in m :: e.generation > 0
  }

  predicate ValidDefinition(d: Definition) { NoDuplicates(Values(d)) }

  /** A fresh search of a manifest with the bucket as it is now. */
  function Fresh(env: Env, live: Live, d: Definition, m: seq<Entry>): Results {
    FullSearch(m, Values(d), MatcherAt(env, live, d))
  }

  /** What `run_search` returns, or that it raises. */
  function RunSearch(env: Env, live: Live, d: Definition, m: seq<Entry>, readsSucceed: bool): Option<Results> {
    if readsSucceed && TotalRows(Values(d), Fresh(env, live, d, m)) <= env.limit then Some(Fresh(env, live, d, m))
    else None
  }

  // ---------- the state machine ----------

  /** Where a run stands in `execute` and `persist_snapshot`. */
  datatype Worker =
    | Listed(d: Definition, m: seq<Entry>)
    | NoBase(d: Definition, m: seq<Entry>)
    | Based(d: Definition, m: seq<Entry>, base: CacheId)
    | Compared(d: Definition, m: seq<Entry>, base: CacheId, previous: seq<Entry>)
    | Rescanning(d: Definition, m: seq<Entry>, previous: seq<Entry>, cached: Results)
    | Ready(d: Definition, m: seq<Entry>, results: Results, refreshed: nat)
    | Inserted(d: Definition, m: seq<Entry>, results: Results, refreshed: nat, id: CacheId)
    | WithManifest(d: Definition, m: seq<Entry>, results: Results, refreshed: nat, id: CacheId)
    | WithResults(d: Definition, m: seq<Entry>, results: Results, refreshed: nat, id: CacheId)
    | Abandoning(id: CacheId)
    | Answered(d: Definition, m: seq<Entry>, results: Results, refreshed: nat, id: CacheId, reused: bool)
    | Finished(d: Definition, m: seq<Entry>, results: Results, id: CacheId)
    | Stopped
  {
    /** It has inserted the PENDING row of a snapshot and is writing that snapshot's rows. */
    predicate Writing() { Inserted? || WithManifest? || WithResults? }

    /** It will still run statements on its own snapshot. */
    predicate Owning() { Writing() || Abandoning? }
  }

  /** `completed` remembers every snapshot whose update to COMPLETE ever took effect. */
  datatype State = State(tables: Tables, live: Live, workers: map<nat, Worker>, completed: set<CacheId>)

  ghost predicate Init(s: State) {
    s.tables == Tables(map[], [], [], []) && s.workers == map[] && s.completed == {}
  }

  datatype Action =
    | Begin(d: Definition, m: seq<Entry>)
    | Lookup(found: Option<CacheId>)
    | SearchAll(readsSucceed: bool)
    | LoadManifest(previous: seq<Entry>)
    | LoadResults(cached: Results)
    | Rescan(readsSucceed: bool)
    | InsertPending(id: CacheId, now: nat, outcome: Outcome)
    | WriteManifest(outcome: Outcome)
    | WriteResults(outcome: Outcome)
    | MarkComplete(outcome: Outcome)
    | MarkFailed(outcome: Outcome)
    | Finish(outcome: Outcome)
    | Crash
    | ChangeBucket(contents: Live)

  function Put(s: State, w: nat, x: Worker): State { s.(workers := s.workers[w := x]) }

  function PutWith(s: State, tables: Tables, w: nat, x: Worker): State {
    s.(tables := tables, workers := s.workers[w := x])
  }

  /** Statements before persisting: listing, choosing a base, loading, searching, merging. */
  predicate SearchStep(env: Env, s: State, w: nat, x: Worker, a: Action, s': State) {
    match (a, x)
    case (Lookup(None), Listed(d, m)) =>
      (forall id | id in s.tables.runs :: !IsComplete(s.tables, d, id)) && s' == Put(s, w, NoBase(d, m))
    case (Lookup(Some(id)), Listed(d, m)) =>
      IsLatest(s.tables, d, id) && s' == Put(s, w, Based(d, m, id))
    case (SearchAll(ok), NoBase(d, m)) =>
      var r := RunSearch(env, s.live, d, m, ok);
      s' == Put(s, w, if r.Some? then Ready(d, m, r.value, |m|) else Stopped)
    case (LoadManifest(previous), Based(d, m, id)) =>
      multiset(previous) == multiset(ManifestOf(s.tables, id)) && s' == Put(s, w, Compared(d, m, id, previous))
    case (LoadResults(cached), Compared(d, m, id, previous)) =>
      && IsLoaded(s.tables, id, d, cached)
      && s' == Put(s, w, if DiffManifests(previous, m).IsEmpty() then Answered(d, m, cached, 0, id, true)
                         else Rescanning(d, m, previous, cached))
    case (Rescan(ok), Rescanning(d, m, previous, cached)) =>
      var diff := DiffManifests(previous, m);
      var r := RunSearch(env, s.live, d, diff.changed, ok);
      s' == Put(s, w, if r.Some? then Ready(d, m, MergeRefreshed(cached, r.value, diff.Affected()), |diff.changed|)
          else Stopped)
    case _ => false
  }

  /** The SELECT has no ORDER BY: any order of the rows of each term. */
  predicate IsLoaded(tables: Tables, id: CacheId, d: Definition, cached: Results) {
    && cached.Keys == (set t | t in Values(d))
    && forall t | t in Values(d) :: multiset(cached[t]) == multiset(ResultsOf(tables, id, t))
  }

  /**
   * The statements of `persist_snapshot`; nothing is written for an empty manifest or no rows. A raise after the
   * PENDING row leads to the update to FAILED.
   */
  predicate PersistStep(s: State, w: nat, x: Worker, a: Action, s': State) {
    match (a, x)
    case (InsertPending(id, now, o), Ready(d, m, results, n)) =>
      && id !in s.tables.runs
      && s' == PutWith(s, if TookEffect(o) then InsertRun(s.tables, id, d, now) else s.tables,
                       w, if o == Returns then Inserted(d, m, results, n, id) else Stopped)
    case (WriteManifest(o), Inserted(d, m, results, n, id)) =>
      && (m == [] ==> o == Returns)
      && s' == PutWith(s, if TookEffect(o) then InsertManifest(s.tables, id, m) else s.tables,
                    w, if o == Returns then WithManifest(d, m, results, n, id) else Abandoning(id))
    case (WriteResults(o), WithManifest(d, m, results, n, id)) =>
      && (Flatten(id, Values(d), results) == [] ==> o == Returns)
      && s' == PutWith(s, if TookEffect(o) then InsertResults(s.tables, id, Values(d), results) else s.tables,
                    w, if o == Returns then WithResults(d, m, results, n, id) else Abandoning(id))
    case (MarkComplete(o), WithResults(d, m, results, n, id)) =>
      s' == PutWith(s, if TookEffect(o) then SetStatus(s.tables, id, Complete) else s.tables,
                    w, if o == Returns then Answered(d, m, results, n, id, false) else Abandoning(id))
            .(completed := if TookEffect(o) then s.completed + {id} else s.completed)
    case (MarkFailed(o), Abandoning(id)) =>
      s' == PutWith(s, if TookEffect(o) then SetStatus(s.tables, id, Failed) else s.tables, w, Stopped)
    case _ => false
  }

  /** The final row-limit check and the access record. */
  predicate FinishStep(env: Env, s: State, w: nat, x: Worker, o: Outcome, s': State) {
    x.Answered? &&
    if TotalRows(Values(x.d), x.results) > env.limit then s' == Put(s, w, Stopped)
    else s' == PutWith(s,
                       if TookEffect(o)
                       then s.tables.(access := s.tables.access + [AccessRow(x.d, x.id, x.reused, x.refreshed)])
                       else s.tables,
                       w, if o == Returns then Finished(x.d, x.m, x.results, x.id) else Stopped)
  }

  predicate Step(env: Env, s: State, w: nat, a: Action, s': State) {
    match a
    case ChangeBucket(contents) => s' == s.(live := contents)
    case Begin(d, m) => w !in s.workers && ValidDefinition(d) && Listable(m) && s' == Put(s, w, Listed(d, m))
    case Crash => w in s.workers && s' == Put(s, w, Stopped)
    case Finish(o) => w in s.workers && FinishStep(env, s, w, s.workers[w], o, s')
    case _ => w in s.workers && (SearchStep(env, s, w, s.workers[w], a, s') || PersistStep(s, w, s.workers[w], a, s'))
  }

  ghost predicate Next(env: Env, s: State, s': State) { exists w, a :: Step(env, s, w, a, s') }

  ghost predicate MovesAt(env: Env, run: seq<State>, i: int) { 0 <= i < |run| - 1 ==> Next(env, run[i], run[i + 1]) }

  /** A run of the whole system. */
  ghost predicate IsRun(env: Env, run: seq<State>) {
    run != [] && Init(run[0]) && forall i :: MovesAt(env, run, i)
  }

  // ---------- the invariant ----------

  /** `results` are the rows of a fresh search of `m`, up to normalisation and order. */
  ghost predicate Correct(env: Env, d: Definition, m: seq<Entry>, results: Results) {
    && results.Keys == (set t | t in Values(d))
    && forall t :: t in Values(d) ==> SameRows(results[t], RowsFor(m, t, MatcherAt(env, map[], d)))
  }

  ghost predicate GoodRows(env: Env, d: Definition, m: seq<Entry>, tables: Tables, id: CacheId) {
    forall t :: t in Values(d) ==> SameRows(ResultsOf(tables, id, t), RowsFor(m, t, MatcherAt(env, map[], d)))
  }

  /** A complete snapshot: its rows are the search of its own manifest. */
  ghost predicate GoodSnapshot(env: Env, tables: Tables, id: CacheId) {
    && id in tables.runs && ValidDefinition(tables.runs[id].definition)
    && Listable(ManifestOf(tables, id))
    && GoodRows(env, tables.runs[id].definition, ManifestOf(tables, id), tables, id)
  }

  ghost predicate IsBase(s: State, id: CacheId, d: Definition) {
    id in s.completed && id in s.tables.runs && s.tables.runs[id].definition == d
  }

  ghost predicate NoResults(tables: Tables, id: CacheId) { forall t :: ResultsOf(tables, id, t) == [] }

  /** What an unfinished snapshot holds so far. */
  ghost predicate Partial(s: State, x: Worker)
    requires x.Writing()
  {
    && x.id in s.tables.runs && x.id !in s.completed && s.tables.runs[x.id].definition == x.d
    && s.tables.runs[x.id].status != Complete
    && ManifestOf(s.tables, x.id) == (if x.Inserted? then [] else x.m)
    && (x.Inserted? || x.WithManifest? ==> NoResults(s.tables, x.id))
    && (x.WithResults? ==> forall t :: t in Values(x.d) && t in x.results ==>
          ResultsOf(s.tables, x.id, t) == NormalRows(x.results[t]))
  }

  /** The snapshot holds a manifest and normalised rows. */
  ghost predicate SnapshotIs(tables: Tables, id: CacheId, d: Definition, m: seq<Entry>, results: Results) {
    && id in tables.runs && tables.runs[id].definition == d && ManifestOf(tables, id) == m
    && forall t :: t in Values(d) && t in results ==> ResultsOf(tables, id, t) == NormalRows(results[t])
  }

  /** The snapshot behind an answer: it is its own, or lists the same objects. */
  ghost predicate Behind(tables: Tables, id: CacheId, d: Definition, m: seq<Entry>, results: Results, reused: bool) {
    if reused then multiset(ManifestOf(tables, id)) == multiset(m) else SnapshotIs(tables, id, d, m, results)
  }

  ghost predicate WorkerOk(env: Env, s: State, x: Worker) {
    && (!x.Stopped? && !x.Abandoning? ==> ValidDefinition(x.d) && Listable(x.m))
    && match x
       case Listed(_, _) => true
       case NoBase(_, _) => true
       case Based(d, m, id) => IsBase(s, id, d)
       case Compared(d, m, id, previous) => IsBase(s, id, d) && multiset(previous) == multiset(ManifestOf(s.tables, id))
       case Rescanning(d, m, previous, cached) => Listable(previous) && Correct(env, d, previous, cached)
       case Ready(d, m, results, _) => Correct(env, d, m, results)
       case Inserted(d, m, results, _, id) => Correct(env, d, m, results) && Partial(s, x)
       case WithManifest(d, m, results, _, id) => Correct(env, d, m, results) && Partial(s, x)
       case WithResults(d, m, results, _, id) => Correct(env, d, m, results) && Partial(s, x)
       case Abandoning(id) => id in s.tables.runs
       case Answered(d, m, results, _, id, reused) =>
         Correct(env, d, m, results) && IsBase(s, id, d) && Behind(s.tables, id, d, m, results, reused)
       case Finished(d, m, results, id) =>
         Correct(env, d, m, results) && IsBase(s, id, d) && multiset(ManifestOf(s.tables, id)) == multiset(m)
       case Stopped => true
  }

  /** Every row belongs to a run row. */
  ghost predicate RowsOwned(tables: Tables) {
    && (forall row :: row in tables.manifests ==> row.cacheId in tables.runs)
    && (forall row :: row in tables.results ==> row.cacheId in tables.runs)
  }

  ghost predicate OwnersDistinct(s: State) {
    forall v, w :: v in s.workers && w in s.workers && v != w && s.workers[v].Owning() && s.workers[w].Owning() ==>
      s.workers[v].id != s.workers[w].id
  }

  /** Every access record names a snapshot that was complete and answers the recorded definition. */
  ghost predicate AccessOk(s: State) {
    forall row :: row in s.tables.access ==> IsBase(s, row.cacheId, row.definition)
  }

  ghost predicate Inv(env: Env, s: State) {
    && RowsOwned(s.tables) && AccessOk(s)
    && (forall id :: id in s.completed ==> GoodSnapshot(env, s.tables, id))
    && (forall id :: id in s.tables.runs && s.tables.runs[id].status == Complete ==> id in s.completed)
    && (forall w :: w in s.workers ==> WorkerOk(env, s, s.workers[w]))
    && OwnersDistinct(s)
  }
}
