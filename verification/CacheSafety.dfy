/**
 * Safety of the cache over whole runs: every answer agrees with a fresh search, every complete snapshot is whole
 * and fixed.
 */
module CacheSafety {
  import opened CacheProtocol
  import opened CacheTables
  import opened ContentSearch
  import opened Model
  import opened Ordering
  import opened Refresh
  import opened SearchSpec
  import opened Sequences
  import opened Wrappers

  // ---------- what a step leaves alone ----------

  ghost predicate SameRowsOf(a: Tables, b: Tables, id: CacheId) {
    ManifestOf(a, id) == ManifestOf(b, id) && forall t :: ResultsOf(a, id, t) == ResultsOf(b, id, t)
  }

  /** Runs stay, complete snapshots stay complete, and their rows do not change. */
  ghost predicate Extends(s: State, s': State) {
    && s.completed <= s'.completed
    && (forall id :: id in s.tables.runs ==>
        id in s'.tables.runs && s'.tables.runs[id].definition == s.tables.runs[id].definition)
    && (forall id :: id in s.completed ==> SameRowsOf(s.tables, s'.tables, id))
  }

  lemma GoodSnapshotKept(env: Env, a: Tables, b: Tables, id: CacheId)
    requires GoodSnapshot(env, a, id) && SameRowsOf(a, b, id)
    requires id in b.runs && b.runs[id].definition == a.runs[id].definition
    ensures GoodSnapshot(env, b, id)
  {}

  /** Only the snapshot `id` may differ, and it keeps its definition. */
  ghost predicate Touches(a: Tables, b: Tables, id: CacheId) {
    && (forall k :: k != id ==> SameRowsOf(a, b, k))
    && (forall k :: k != id ==> (k in a.runs <==> k in b.runs))
    && (forall k :: k != id && k in a.runs && k in b.runs ==> b.runs[k] == a.runs[k])
    && (id in a.runs ==> id in b.runs && b.runs[id].definition == a.runs[id].definition)
  }

  ghost predicate NobodyWrites(s: State, id: CacheId) {
    forall v :: v in s.workers && s.workers[v].Writing() ==> s.workers[v].id != id
  }

  lemma TouchExtends(env: Env, s: State, s': State, id: CacheId)
    requires Touches(s.tables, s'.tables, id) && s.completed <= s'.completed
    requires id in s.completed ==> SameRowsOf(s.tables, s'.tables, id)
    ensures Extends(s, s')
  {}

  lemma WorkerKept(env: Env, s: State, s': State, x: Worker, id: CacheId)
    requires WorkerOk(env, s, x) && Extends(s, s') && Touches(s.tables, s'.tables, id)
    requires s'.completed <= s.completed + {id}
    requires x.Writing() ==> x.id != id
    ensures WorkerOk(env, s', x)
  {
    if x.Writing() {
      assert SameRowsOf(s.tables, s'.tables, x.id);
    }
  }

  /** A statement that touches only a snapshot nobody is writing, and no row of a complete one, keeps the invariant. */
  lemma TablesChanged(env: Env, s: State, s': State, id: CacheId)
    requires Inv(env, s) && s'.workers == s.workers
    requires Touches(s.tables, s'.tables, id) && RowsOwned(s'.tables) && NobodyWrites(s, id)
    requires s'.tables.access == s.tables.access || AccessOk(s')
    requires s.completed <= s'.completed <= s.completed + {id}
    requires id in s.completed ==> SameRowsOf(s.tables, s'.tables, id)
    requires id in s'.completed ==> GoodSnapshot(env, s'.tables, id)
    requires id in s'.tables.runs && s'.tables.runs[id].status == Complete ==> id in s'.completed
    ensures Inv(env, s')
  {
    TouchExtends(env, s, s', id);
    forall k | k in s'.completed
      ensures GoodSnapshot(env, s'.tables, k)
    {
      if k != id {
        GoodSnapshotKept(env, s.tables, s'.tables, k);
      }
    }
    forall v | v in s'.workers
      ensures WorkerOk(env, s', s'.workers[v])
    {
      WorkerKept(env, s, s', s.workers[v], id);
    }
  }

  /** A step that only moves one worker on. */
  lemma WorkerMoved(env: Env, s: State, w: nat, x: Worker)
    requires Inv(env, s) && WorkerOk(env, s, x)
    requires x.Owning() ==> forall v :: v in s.workers && v != w && s.workers[v].Owning() ==> s.workers[v].id != x.id
    ensures Inv(env, Put(s, w, x))
  {
    var s' := Put(s, w, x);
    forall v | v in s'.workers
      ensures WorkerOk(env, s', s'.workers[v])
    {
      var y := s'.workers[v];
      assert WorkerOk(env, s, y);
    }
  }

  lemma PreservedLocally(env: Env, s: State, w: nat, x: Worker)
    requires Inv(env, s) && WorkerOk(env, s, x) && !x.Owning()
    ensures Inv(env, Put(s, w, x))
  {
    WorkerMoved(env, s, w, x);
  }

  /** Nobody but `w` has the snapshot in hand. */
  ghost predicate InHandOf(s: State, w: nat, id: CacheId) {
    forall v :: v in s.workers && v != w && s.workers[v].Owning() ==> s.workers[v].id != id
  }

  /** A statement of worker `w` on the snapshot `id`, which nobody else has in hand. */
  ghost predicate IsStatement(env: Env, s: State, w: nat, s': State, id: CacheId) {
    && w in s.workers && w in s'.workers && s'.workers == s.workers[w := s'.workers[w]]
    && Touches(s.tables, s'.tables, id) && RowsOwned(s'.tables)
    && (s'.tables.access == s.tables.access || AccessOk(s'))
    && InHandOf(s, w, id)
    && s.completed <= s'.completed <= s.completed + {id}
    && (id in s.completed ==> SameRowsOf(s.tables, s'.tables, id))
    && (id in s'.completed ==> GoodSnapshot(env, s'.tables, id))
    && (id in s'.tables.runs && s'.tables.runs[id].status == Complete ==> id in s'.completed)
  }

  /** The state after a statement, when its worker has let go of its snapshot. */
  function Released(s: State, w: nat, s': State): State {
    Put(s, w, Stopped).(tables := s'.tables, completed := s'.completed)
  }

  lemma ReleasedKeeps(env: Env, s: State, w: nat, s': State, id: CacheId)
    requires Inv(env, s) && IsStatement(env, s, w, s', id)
    ensures Inv(env, Released(s, w, s'))
  {
    PreservedLocally(env, s, w, Stopped);
    TablesChanged(env, Put(s, w, Stopped), Released(s, w, s'), id);
  }

  /**
   * A persist statement, seen as three moves: the worker lets go of its snapshot, the tables change, the worker
   * takes the snapshot up again.
   */
  lemma StatementKeeps(env: Env, s: State, w: nat, s': State, id: CacheId)
    requires Inv(env, s) && IsStatement(env, s, w, s', id)
    requires WorkerOk(env, s', s'.workers[w]) && (s'.workers[w].Owning() ==> s'.workers[w].id == id)
    ensures Inv(env, s')
  {
    var changed, x := Released(s, w, s'), s'.workers[w];
    ReleasedKeeps(env, s, w, s', id);
    WorkerOkTables(env, s', changed, x);
    TakenUp(env, changed, w, x, id);
    InvIgnoresLive(env, Put(changed, w, x), s');
  }

  lemma TakenUp(env: Env, s: State, w: nat, x: Worker, id: CacheId)
    requires Inv(env, s) && WorkerOk(env, s, x) && InHandOf(s, w, id) && (x.Owning() ==> x.id == id)
    ensures Inv(env, Put(s, w, x))
  {
    WorkerMoved(env, s, w, x);
  }

  lemma WorkerOkTables(env: Env, s: State, s': State, x: Worker)
    requires WorkerOk(env, s, x) && s'.tables == s.tables && s'.completed == s.completed
    ensures WorkerOk(env, s', x)
  {}

  /** The invariant speaks of no particular bucket contents. */
  lemma InvIgnoresLive(env: Env, s: State, s': State)
    requires Inv(env, s) && s'.tables == s.tables && s'.completed == s.completed && s'.workers == s.workers
    ensures Inv(env, s')
  {
    forall w | w in s'.workers
      ensures WorkerOk(env, s', s'.workers[w])
    {
      WorkerOkTables(env, s, s', s.workers[w]);
    }
  }

  // ---------- the search steps ----------

  lemma PinnedRows(env: Env, live: Live, d: Definition, m: seq<Entry>, t: string)
    requires ValidEnv(env) && forall e :: e in m ==> e.generation > 0
    ensures RowsFor(m, t, MatcherAt(env, live, d)) == RowsFor(m, t, MatcherAt(env, map[], d))
  {
    var a, b := MatcherAt(env, live, d), MatcherAt(env, map[], d);
    MapFilterCongruence(m, (e: Entry) => a(e, t), (e: Entry) => b(e, t));
  }

  /** A search at any moment is correct for its manifest. */
  lemma FreshCorrect(env: Env, live: Live, d: Definition, m: seq<Entry>)
    requires ValidEnv(env) && forall e :: e in m ==> e.generation > 0
    ensures Correct(env, d, m, Fresh(env, live, d, m))
  {
    forall t | t in Values(d)
      ensures SameRows(Fresh(env, live, d, m)[t], RowsFor(m, t, MatcherAt(env, map[], d)))
    {
      PinnedRows(env, live, d, m, t);
      SameRowsPermutation(Fresh(env, live, d, m)[t], RowsFor(m, t, MatcherAt(env, live, d)));
    }
  }

  lemma LoadedCorrect(env: Env, s: State, d: Definition, id: CacheId, previous: seq<Entry>, cached: Results)
    requires GoodSnapshot(env, s.tables, id) && s.tables.runs[id].definition == d
    requires IsLoaded(s.tables, id, d, cached)
    requires multiset(previous) == multiset(ManifestOf(s.tables, id))
    ensures Listable(previous) && Correct(env, d, previous, cached)
  {
    var m := ManifestOf(s.tables, id);
    DistinctPermutation(m, previous, EntryKey);
    PermutationElements(m, previous);
    forall t | t in Values(d)
      ensures SameRows(cached[t], RowsFor(previous, t, MatcherAt(env, map[], d)))
    {
      var f := MatcherAt(env, map[], d);
      SameRowsPermutation(cached[t], ResultsOf(s.tables, id, t));
      RowsForPermutation(m, previous, t, f);
      SameRowsPermutation(RowsFor(m, t, f), RowsFor(previous, t, f));
    }
  }

  lemma ReuseCorrect(env: Env, d: Definition, previous: seq<Entry>, m: seq<Entry>, cached: Results)
    requires Listable(previous) && Listable(m) && Correct(env, d, previous, cached)
    requires DiffManifests(previous, m).IsEmpty()
    ensures Correct(env, d, m, cached) && multiset(previous) == multiset(m)
  {
    DiffEmpty(previous, m);
    var f := MatcherAt(env, map[], d);
    forall t | t in Values(d)
      ensures SameRows(cached[t], RowsFor(m, t, f))
    {
      RowsForPermutation(previous, m, t, f);
      SameRowsPermutation(RowsFor(previous, t, f), RowsFor(m, t, f));
    }
  }

  lemma MergeCorrect(env: Env, d: Definition, previous: seq<Entry>, m: seq<Entry>, cached: Results, refreshed: Results)
    requires ValidEnv(env) && Listable(previous) && Listable(m) && Correct(env, d, previous, cached)
    requires Correct(env, d, DiffManifests(previous, m).changed, refreshed)
    ensures Correct(env, d, m, MergeRefreshed(cached, refreshed, DiffManifests(previous, m).Affected()))
  {
    var f, merged := MatcherAt(env, map[], d), MergeRefreshed(cached, refreshed, DiffManifests(previous, m).Affected());
    assert merged.Keys == cached.Keys;
    forall t | t in Values(d)
      ensures SameRows(merged[t], RowsFor(m, t, f))
    {
      assert t in cached && t in refreshed;
      MergedTerm(previous, m, cached, refreshed, t, f);
    }
  }

  lemma MergedTerm(previous: seq<Entry>, m: seq<Entry>, cached: Results, refreshed: Results, t: string, f: Matcher)
    requires UniqueKeys(previous) && UniqueKeys(m) && Keyed(f) && t in cached && t in refreshed
    requires SameRows(cached[t], RowsFor(previous, t, f))
    requires SameRows(refreshed[t], RowsFor(DiffManifests(previous, m).changed, t, f))
    ensures var merged := MergeRefreshed(cached, refreshed, DiffManifests(previous, m).Affected());
      t in merged && SameRows(merged[t], RowsFor(m, t, f))
  {
    var affected := DiffManifests(previous, m).Affected();
    RefreshedRows(previous, m, cached[t], refreshed[t], t, f);
    SameRowsPermutation(MergeRefreshed(cached, refreshed, affected)[t],
                        MapFilter(cached[t], KeepRow(affected)) + refreshed[t]);
  }

  lemma LookupKeeps(env: Env, s: State, w: nat, a: Action, s': State)
    requires Inv(env, s) && w in s.workers && a.Lookup? && SearchStep(env, s, w, s.workers[w], a, s')
    ensures Inv(env, s')
  {
    var x, y := s.workers[w], s'.workers[w];
    assert WorkerOk(env, s, x);
    PreservedLocally(env, s, w, y);
  }

  lemma SearchAllKeeps(env: Env, s: State, w: nat, a: Action, s': State)
    requires ValidEnv(env) && Inv(env, s) && w in s.workers && a.SearchAll? &&
              SearchStep(env, s, w, s.workers[w], a, s')
    ensures Inv(env, s')
  {
    var x, y := s.workers[w], s'.workers[w];
    assert WorkerOk(env, s, x);
    FreshCorrect(env, s.live, x.d, x.m);
    PreservedLocally(env, s, w, y);
  }

  lemma LoadManifestKeeps(env: Env, s: State, w: nat, a: Action, s': State)
    requires Inv(env, s) && w in s.workers && a.LoadManifest? && SearchStep(env, s, w, s.workers[w], a, s')
    ensures Inv(env, s')
  {
    var x, y := s.workers[w], s'.workers[w];
    assert WorkerOk(env, s, x);
    PreservedLocally(env, s, w, y);
  }

  lemma LoadResultsCorrect(env: Env, s: State, x: Worker, cached: Results)
    requires Inv(env, s) && WorkerOk(env, s, x) && x.Compared? && IsLoaded(s.tables, x.base, x.d, cached)
    ensures Listable(x.previous) && Correct(env, x.d, x.previous, cached)
    ensures multiset(x.previous) == multiset(ManifestOf(s.tables, x.base)) && IsBase(s, x.base, x.d)
  {
    LoadedCorrect(env, s, x.d, x.base, x.previous, cached);
  }

  lemma LoadResultsOk(env: Env, s: State, x: Worker, cached: Results)
    requires Inv(env, s) && WorkerOk(env, s, x) && x.Compared? && IsLoaded(s.tables, x.base, x.d, cached)
    ensures DiffManifests(x.previous, x.m).IsEmpty() ==> WorkerOk(env, s, Answered(x.d, x.m, cached, 0, x.base, true))
    ensures WorkerOk(env, s, Rescanning(x.d, x.m, x.previous, cached))
  {
    LoadResultsCorrect(env, s, x, cached);
    if DiffManifests(x.previous, x.m).IsEmpty() {
      ReuseCorrect(env, x.d, x.previous, x.m, cached);
    }
  }

  lemma LoadResultsKeeps(env: Env, s: State, w: nat, a: Action, s': State)
    requires Inv(env, s) && w in s.workers && a.LoadResults? && SearchStep(env, s, w, s.workers[w], a, s')
    ensures Inv(env, s')
  {
    LoadResultsOk(env, s, s.workers[w], a.cached);
    PreservedLocally(env, s, w, s'.workers[w]);
  }

  lemma RescanKeeps(env: Env, s: State, w: nat, a: Action, s': State)
    requires ValidEnv(env) && Inv(env, s) && w in s.workers && a.Rescan? && SearchStep(env, s, w, s.workers[w], a, s')
    ensures Inv(env, s')
  {
    var x, y := s.workers[w], s'.workers[w];
    assert WorkerOk(env, s, x);
    var changed := DiffManifests(x.previous, x.m).changed;
    ChangedCharacterised(x.previous, x.m);
    FreshCorrect(env, s.live, x.d, changed);
    MergeCorrect(env, x.d, x.previous, x.m, x.cached, Fresh(env, s.live, x.d, changed));
    PreservedLocally(env, s, w, y);
  }

  // ---------- the persist steps ----------

  lemma MissingRowsRead(tables: Tables, id: CacheId)
    requires RowsOwned(tables) && id !in tables.runs
    ensures ManifestOf(tables, id) == [] && NoResults(tables, id)
  {
    EmptyFilter(tables.manifests, EntryIn(id));
    forall t {
      EmptyFilter(tables.results, RowIn(id, t));
    }
  }

  lemma UnknownIsFree(env: Env, s: State, id: CacheId)
    requires Inv(env, s) && id !in s.tables.runs
    ensures id !in s.completed
    ensures forall v :: v in s.workers && s.workers[v].Owning() ==> s.workers[v].id != id
  {
    forall k | k in s.completed
      ensures k in s.tables.runs
    {
      assert GoodSnapshot(env, s.tables, k);
    }
    forall v | v in s.workers && s.workers[v].Owning()
      ensures s.workers[v].id in s.tables.runs
    {
      assert WorkerOk(env, s, s.workers[v]);
    }
  }

  lemma InsertPendingKeeps(env: Env, s: State, w: nat, a: Action, s': State)
    requires Inv(env, s) && w in s.workers && a.InsertPending? && PersistStep(s, w, s.workers[w], a, s')
    ensures Inv(env, s')
  {
    assert WorkerOk(env, s, s.workers[w]);
    MissingRowsRead(s.tables, a.id);
    UnknownIsFree(env, s, a.id);
    assert forall t :: ResultsOf(s'.tables, a.id, t) == ResultsOf(s.tables, a.id, t);
    StatementKeeps(env, s, w, s', a.id);
  }

  lemma WriteManifestTouches(tables: Tables, id: CacheId, m: seq<Entry>)
    requires RowsOwned(tables) && id in tables.runs
    ensures Touches(tables, InsertManifest(tables, id, m), id) && RowsOwned(InsertManifest(tables, id, m))
    ensures ManifestOf(InsertManifest(tables, id, m), id) == ManifestOf(tables, id) + m
    ensures forall t :: ResultsOf(InsertManifest(tables, id, m), id, t) == ResultsOf(tables, id, t)
  {
    forall k
      ensures ManifestOf(InsertManifest(tables, id, m), k) == ManifestOf(tables, k) + if k == id then m else []
    {
      InsertManifestReads(tables, id, m, k);
    }
    ManifestRowsOwned(tables, id, m);
  }

  /** A worker that is writing a snapshot is the only one to write it, and it is not complete. */
  lemma OwnerAlone(env: Env, s: State, w: nat)
    requires Inv(env, s) && w in s.workers && s.workers[w].Writing()
    ensures s.workers[w].id !in s.completed && s.workers[w].id in s.tables.runs
    ensures forall v :: v in s.workers && v != w && s.workers[v].Owning() ==> s.workers[v].id != s.workers[w].id
  {
    assert WorkerOk(env, s, s.workers[w]);
  }

  lemma WriteManifestKeeps(env: Env, s: State, w: nat, a: Action, s': State)
    requires Inv(env, s) && w in s.workers && a.WriteManifest? && PersistStep(s, w, s.workers[w], a, s')
    ensures Inv(env, s')
  {
    var x := s.workers[w];
    assert WorkerOk(env, s, x);
    OwnerAlone(env, s, w);
    WriteManifestTouches(s.tables, x.id, x.m);
    StatementKeeps(env, s, w, s', x.id);
  }

  lemma ManifestRowsOwned(tables: Tables, id: CacheId, m: seq<Entry>)
    requires RowsOwned(tables) && id in tables.runs
    ensures RowsOwned(InsertManifest(tables, id, m))
  {
    var make := (e: Entry) => Some(ManifestRow(id, e));
    forall row | row in ManifestRows(id, m)
      ensures row.cacheId == id
    {
      MapFilterIn(m, make, row);
    }
  }

  lemma {:induction false} ResultRowsOwned(id: CacheId, terms: seq<string>, results: Results)
    ensures forall row :: row in Flatten(id, terms, results) ==> row.cacheId == id
  {
    if terms != [] {
      ResultRowsOwned(id, terms[1..], results);
      if terms[0] in results {
        var make := (r: Row) => Some(Store(id, terms[0], r));
        forall row | row in TermRows(id, terms[0], results[terms[0]])
          ensures row.cacheId == id
        {
          MapFilterIn(results[terms[0]], make, row);
        }
      }
    }
  }

  lemma WriteResultsTouches(tables: Tables, id: CacheId, terms: seq<string>, results: Results)
    requires RowsOwned(tables) && id in tables.runs && NoDuplicates(terms)
    ensures var after := InsertResults(tables, id, terms, results);
      && Touches(tables, after, id) && RowsOwned(after)
      && ManifestOf(after, id) == ManifestOf(tables, id)
      && forall t :: t in terms && t in results ==>
          ResultsOf(after, id, t) == ResultsOf(tables, id, t) + NormalRows(results[t])
  {
    forall k, t
      ensures ResultsOf(InsertResults(tables, id, terms, results), k, t) ==
              ResultsOf(tables, k, t) + if k == id && t in terms && t in results then NormalRows(results[t]) else []
    {
      InsertResultsReads(tables, id, terms, results, k, t);
    }
    ResultRowsOwned(id, terms, results);
  }

  /** The rows of a worker's results are in its snapshot once the statement took effect. */
  lemma WrittenPartial(env: Env, s: State, x: Worker, s': State)
    requires x.WithManifest? && WorkerOk(env, s, x) && RowsOwned(s.tables)
    requires s'.tables == InsertResults(s.tables, x.id, Values(x.d), x.results) && s'.completed == s.completed
    ensures WorkerOk(env, s', WithResults(x.d, x.m, x.results, x.refreshed, x.id))
    ensures WorkerOk(env, s', Abandoning(x.id))
  {
    WriteResultsTouches(s.tables, x.id, Values(x.d), x.results);
    forall t | t in Values(x.d) && t in x.results
      ensures ResultsOf(s'.tables, x.id, t) == NormalRows(x.results[t])
    {
      assert ResultsOf(s.tables, x.id, t) == [];
    }
  }

  lemma ResultsWorkerOk(env: Env, s: State, w: nat, a: Action, s': State)
    requires w in s.workers && a.WriteResults? && PersistStep(s, w, s.workers[w], a, s')
    requires WorkerOk(env, s, s.workers[w]) && RowsOwned(s.tables)
    ensures WorkerOk(env, s', s'.workers[w])
  {
    if TookEffect(a.outcome) {
      WrittenPartial(env, s, s.workers[w], s');
    }
  }

  lemma ResultsTouch(env: Env, s: State, w: nat, a: Action, s': State)
    requires w in s.workers && a.WriteResults? && PersistStep(s, w, s.workers[w], a, s')
    requires WorkerOk(env, s, s.workers[w]) && RowsOwned(s.tables)
    ensures Touches(s.tables, s'.tables, s.workers[w].id) && RowsOwned(s'.tables)
    ensures s'.completed == s.completed && s'.tables.access == s.tables.access && s'.tables.runs == s.tables.runs
  {
    var x := s.workers[w];
    WriteResultsTouches(s.tables, x.id, Values(x.d), x.results);
  }

  lemma ResultsIsStatement(env: Env, s: State, w: nat, a: Action, s': State)
    requires Inv(env, s) && w in s.workers && a.WriteResults? && PersistStep(s, w, s.workers[w], a, s')
    ensures IsStatement(env, s, w, s', s.workers[w].id)
  {
    OwnerAlone(env, s, w);
    ResultsTouch(env, s, w, a, s');
  }

  lemma WriteResultsKeeps(env: Env, s: State, w: nat, a: Action, s': State)
    requires Inv(env, s) && w in s.workers && a.WriteResults? && PersistStep(s, w, s.workers[w], a, s')
    ensures Inv(env, s')
  {
    ResultsIsStatement(env, s, w, a, s');
    ResultsWorkerOk(env, s, w, a, s');
    StatementKeeps(env, s, w, s', s.workers[w].id);
  }

  lemma WrittenSnapshotGood(env: Env, s: State, x: Worker)
    requires x.WithResults? && WorkerOk(env, s, x)
    ensures GoodSnapshot(env, s.tables, x.id)
  {
    forall t | t in Values(x.d)
      ensures SameRows(ResultsOf(s.tables, x.id, t), RowsFor(x.m, t, MatcherAt(env, map[], x.d)))
    {
      NormalTwice(x.results[t]);
    }
  }

  lemma NormalTwice(rows: seq<Row>)
    ensures NormalRows(NormalRows(rows)) == NormalRows(rows)
  {
    forall r
      ensures Normal(Normal(r)) == Normal(r)
    {
      StoreLoad(0, "", r);
    }
    MapFilterFusion(rows, NormalRow, NormalRow, NormalRow);
  }

  lemma StatusTouches(tables: Tables, id: CacheId, status: RunStatus)
    requires RowsOwned(tables)
    ensures Touches(tables, SetStatus(tables, id, status), id) && RowsOwned(SetStatus(tables, id, status))
    ensures SameRowsOf(tables, SetStatus(tables, id, status), id)
  {}

  lemma MarkCompleteKeeps(env: Env, s: State, w: nat, a: Action, s': State)
    requires Inv(env, s) && w in s.workers && a.MarkComplete? && PersistStep(s, w, s.workers[w], a, s')
    ensures Inv(env, s')
  {
    var x := s.workers[w];
    assert WorkerOk(env, s, x);
    OwnerAlone(env, s, w);
    WrittenSnapshotGood(env, s, x);
    StatusTouches(s.tables, x.id, Complete);
    GoodSnapshotKept(env, s.tables, SetStatus(s.tables, x.id, Complete), x.id);
    StatementKeeps(env, s, w, s', x.id);
  }

  lemma MarkFailedKeeps(env: Env, s: State, w: nat, a: Action, s': State)
    requires Inv(env, s) && w in s.workers && a.MarkFailed? && PersistStep(s, w, s.workers[w], a, s')
    ensures Inv(env, s')
  {
    var id := s.workers[w].id;
    assert WorkerOk(env, s, s.workers[w]);
    StatusTouches(s.tables, id, Failed);
    if id in s.completed {
      GoodSnapshotKept(env, s.tables, SetStatus(s.tables, id, Failed), id);
    }
    StatementKeeps(env, s, w, s', id);
  }

  /** An access record changes nothing that the invariant speaks of, but itself. */
  lemma AccessKeeps(env: Env, s: State, row: AccessRow)
    requires Inv(env, s) && IsBase(s, row.cacheId, row.definition)
    ensures Inv(env, s.(tables := s.tables.(access := s.tables.access + [row])))
  {
    var s' := s.(tables := s.tables.(access := s.tables.access + [row]));
    forall id | id in s.completed
      ensures GoodSnapshot(env, s'.tables, id)
    {
      GoodSnapshotKept(env, s.tables, s'.tables, id);
    }
    forall v | v in s.workers
      ensures WorkerOk(env, s', s.workers[v])
    {
      WorkerSameRows(env, s, s', s.workers[v]);
    }
  }

  lemma WorkerSameRows(env: Env, s: State, s': State, x: Worker)
    requires WorkerOk(env, s, x) && s'.completed == s.completed && s'.tables == s.tables.(access := s'.tables.access)
    ensures WorkerOk(env, s', x)
  {
    assert forall id :: SameRowsOf(s.tables, s'.tables, id);
    if x.Writing() {
      assert SameRowsOf(s.tables, s'.tables, x.id);
    }
  }

  lemma FinishKeeps(env: Env, s: State, w: nat, o: Outcome, s': State)
    requires Inv(env, s) && w in s.workers && FinishStep(env, s, w, s.workers[w], o, s')
    ensures Inv(env, s')
  {
    var x := s.workers[w];
    assert WorkerOk(env, s, x);
    if TotalRows(Values(x.d), x.results) <= env.limit && TookEffect(o) {
      var recorded := s.(tables := s'.tables);
      AccessKeeps(env, s, AccessRow(x.d, x.id, x.reused, x.refreshed));
      WorkerOkTables(env, s, s, x);
      PreservedLocally(env, recorded, w, s'.workers[w]);
    } else {
      PreservedLocally(env, s, w, s'.workers[w]);
    }
  }

  // ---------- whole runs ----------

  lemma InitHolds(env: Env, s: State)
    requires Init(s)
    ensures Inv(env, s)
  {}

  lemma SearchStepKeeps(env: Env, s: State, w: nat, a: Action, s': State)
    requires ValidEnv(env) && Inv(env, s) && w in s.workers && SearchStep(env, s, w, s.workers[w], a, s')
    ensures Inv(env, s')
  {
    match a {
      case Lookup(_) => LookupKeeps(env, s, w, a, s');
      case SearchAll(_) => SearchAllKeeps(env, s, w, a, s');
      case LoadManifest(_) => LoadManifestKeeps(env, s, w, a, s');
      case LoadResults(_) => LoadResultsKeeps(env, s, w, a, s');
      case Rescan(_) => RescanKeeps(env, s, w, a, s');
      case _ =>
    }
  }

  lemma PersistStepKeeps(env: Env, s: State, w: nat, a: Action, s': State)
    requires ValidEnv(env) && Inv(env, s) && w in s.workers && PersistStep(s, w, s.workers[w], a, s')
    ensures Inv(env, s')
  {
    match a {
      case InsertPending(_, _, _) => InsertPendingKeeps(env, s, w, a, s');
      case WriteManifest(_) => WriteManifestKeeps(env, s, w, a, s');
      case WriteResults(_) => WriteResultsKeeps(env, s, w, a, s');
      case MarkComplete(_) => MarkCompleteKeeps(env, s, w, a, s');
      case MarkFailed(_) => MarkFailedKeeps(env, s, w, a, s');
      case _ =>
    }
  }

  lemma BeginKeeps(env: Env, s: State, w: nat, d: Definition, m: seq<Entry>)
    requires Inv(env, s) && ValidDefinition(d) && Listable(m)
    ensures Inv(env, Put(s, w, Listed(d, m)))
  {
    PreservedLocally(env, s, w, Listed(d, m));
  }

  lemma OtherStepKeeps(env: Env, s: State, w: nat, a: Action, s': State)
    requires ValidEnv(env) && Inv(env, s) && Step(env, s, w, a, s')
    requires a.Begin? || a.Finish? || a.Crash? || a.ChangeBucket?
    ensures Inv(env, s')
  {
    match a {
      case Begin(d, m) => BeginKeeps(env, s, w, d, m);
      case Finish(o) => FinishKeeps(env, s, w, o, s');
      case Crash => PreservedLocally(env, s, w, Stopped);
      case ChangeBucket(_) => InvIgnoresLive(env, s, s');
    }
  }

  lemma StepKeeps(env: Env, s: State, w: nat, a: Action, s': State)
    requires ValidEnv(env) && Inv(env, s) && Step(env, s, w, a, s')
    ensures Inv(env, s')
  {
    if a.Begin? || a.Finish? || a.Crash? || a.ChangeBucket? {
      OtherStepKeeps(env, s, w, a, s');
    } else if SearchStep(env, s, w, s.workers[w], a, s') {
      SearchStepKeeps(env, s, w, a, s');
    } else {
      PersistStepKeeps(env, s, w, a, s');
    }
  }

  lemma {:induction false} RunKeeps(env: Env, run: seq<State>, i: nat)
    requires ValidEnv(env) && IsRun(env, run) && i < |run|
    ensures Inv(env, run[i])
  {
    if i == 0 {
      InitHolds(env, run[0]);
    } else {
      RunKeeps(env, run, i - 1);
      assert MovesAt(env, run, i - 1);
      var w, a :| Step(env, run[i - 1], w, a, run[i]);
      StepKeeps(env, run[i - 1], w, a, run[i]);
    }
  }

  /** Every answer, full, incremental or reused, agrees with a search of the listed manifest made now. */
  lemma AnswersAgree(env: Env, run: seq<State>, i: nat, w: nat)
    requires ValidEnv(env) && IsRun(env, run) && i < |run|
    requires w in run[i].workers && (run[i].workers[w].Answered? || run[i].workers[w].Finished?)
    ensures var x := run[i].workers[w]; var full := Fresh(env, run[i].live, x.d, x.m);
      x.results.Keys == full.Keys && forall t :: t in full ==> SameRows(x.results[t], full[t])
  {
    RunKeeps(env, run, i);
    var x := run[i].workers[w];
    assert WorkerOk(env, run[i], x);
    CorrectIsFresh(env, run[i].live, x.d, x.m, x.results);
  }

  lemma CorrectIsFresh(env: Env, live: Live, d: Definition, m: seq<Entry>, results: Results)
    requires ValidEnv(env) && Listable(m) && Correct(env, d, m, results)
    ensures results.Keys == Fresh(env, live, d, m).Keys
    ensures forall t :: t in Values(d) ==> SameRows(results[t], Fresh(env, live, d, m)[t])
  {
    FreshCorrect(env, live, d, m);
  }

  lemma SameRowsLength(a: seq<Row>, b: seq<Row>)
    requires SameRows(a, b)
    ensures |a| == |b|
  {
    MapFilterLength(a, NormalRow);
    MapFilterLength(b, NormalRow);
    PermutationElements(NormalRows(a), NormalRows(b));
  }

  lemma SameTotal(d: Definition, a: Results, b: Results)
    requires forall t :: t in Values(d) ==> t in a && t in b && SameRows(a[t], b[t])
    ensures TotalRows(Values(d), a) == TotalRows(Values(d), b)
  {
    forall t | t in Values(d)
      ensures |a[t]| == |b[t]|
    {
      SameRowsLength(a[t], b[t]);
    }
    TotalCongruence(Values(d), a, b);
  }

  /**
   * With all reads succeeding, a run that has an answer passes the row-limit check exactly when a full
   * search of its manifest would, whatever oversized snapshot its answer was built on.
   */
  lemma RowLimitAgrees(env: Env, run: seq<State>, i: nat, w: nat)
    requires ValidEnv(env) && IsRun(env, run) && i < |run|
    requires w in run[i].workers && run[i].workers[w].Answered?
    ensures var x := run[i].workers[w];
      TotalRows(Values(x.d), x.results) <= env.limit <==> RunSearch(env, run[i].live, x.d, x.m, true).Some?
  {
    RunKeeps(env, run, i);
    var x := run[i].workers[w];
    assert WorkerOk(env, run[i], x);
    CorrectIsFresh(env, run[i].live, x.d, x.m, x.results);
    SameTotal(x.d, x.results, Fresh(env, run[i].live, x.d, x.m));
  }

  /** A rescan stopped by the row limit alone means that a full search would have been stopped too. */
  lemma RescanLimitAgrees(env: Env, live: Live, d: Definition, previous: seq<Entry>, m: seq<Entry>)
    requires UniqueKeys(previous) && UniqueKeys(m)
    requires RunSearch(env, live, d, DiffManifests(previous, m).changed, true).None?
    ensures RunSearch(env, live, d, m, true).None?
  {
    var diff, f := DiffManifests(previous, m), MatcherAt(env, live, d);
    var kept := MapFilter(previous, Unaffected(diff.Affected()));
    PatchRoundTrip(previous, m);
    forall t | t in Values(d)
      ensures |FullSearch(diff.changed, Values(d), f)[t]| <= |FullSearch(m, Values(d), f)[t]|
    {
      RowsForConcat(kept, diff.changed, t, f);
      RowsForPermutation(kept + diff.changed, m, t, f);
      PermutationElements(RowsFor(kept + diff.changed, t, f), RowsFor(m, t, f));
      PermutationElements(SortOn(RowsFor(m, t, f), RowKey, KeyLe), RowsFor(m, t, f));
      PermutationElements(SortOn(RowsFor(diff.changed, t, f), RowKey, KeyLe), RowsFor(diff.changed, t, f));
    }
    TotalMonotone(Values(d), FullSearch(diff.changed, Values(d), f), FullSearch(m, Values(d), f));
  }

  lemma SameTablesExtend(s: State, s': State)
    requires s'.completed == s.completed && s'.tables.runs == s.tables.runs
    requires s'.tables.manifests == s.tables.manifests && s'.tables.results == s.tables.results
    ensures Extends(s, s')
  {}

  lemma InsertExtends(env: Env, s: State, w: nat, a: Action, s': State)
    requires Inv(env, s) && w in s.workers && a.InsertPending? && PersistStep(s, w, s.workers[w], a, s')
    ensures Extends(s, s')
  {
    UnknownIsFree(env, s, a.id);
  }

  lemma WriteExtends(env: Env, s: State, w: nat, a: Action, s': State)
    requires Inv(env, s) && w in s.workers && (a.WriteManifest? || a.WriteResults?) &&
              PersistStep(s, w, s.workers[w], a, s')
    ensures Extends(s, s')
  {
    var x := s.workers[w];
    assert WorkerOk(env, s, x);
    if a.WriteManifest? {
      WriteManifestTouches(s.tables, x.id, x.m);
    } else {
      WriteResultsTouches(s.tables, x.id, Values(x.d), x.results);
    }
    assert x.id !in s.completed;
    TouchExtends(env, s, s', x.id);
  }

  lemma MarkExtends(env: Env, s: State, w: nat, a: Action, s': State)
    requires Inv(env, s) && w in s.workers && (a.MarkComplete? || a.MarkFailed?) &&
              PersistStep(s, w, s.workers[w], a, s')
    ensures Extends(s, s')
  {
    var id := s.workers[w].id;
    StatusTouches(s.tables, id, Complete);
    StatusTouches(s.tables, id, Failed);
    TouchExtends(env, s, s', id);
  }

  lemma StepExtends(env: Env, s: State, w: nat, a: Action, s': State)
    requires Inv(env, s) && Step(env, s, w, a, s')
    ensures Extends(s, s')
  {
    if a.InsertPending? {
      InsertExtends(env, s, w, a, s');
    } else if a.WriteManifest? || a.WriteResults? {
      WriteExtends(env, s, w, a, s');
    } else if a.MarkComplete? || a.MarkFailed? {
      MarkExtends(env, s, w, a, s');
    } else {
      SameTablesExtend(s, s');
    }
  }

  lemma NextExtends(env: Env, s: State, s': State)
    requires Inv(env, s) && Next(env, s, s')
    ensures Extends(s, s')
  {
    var w, a :| Step(env, s, w, a, s');
    StepExtends(env, s, w, a, s');
  }

  lemma ExtendsTransitive(a: State, b: State, c: State)
    requires Extends(a, b) && Extends(b, c)
    ensures Extends(a, c)
  {}

  /**
   * A snapshot visible as COMPLETE is whole, its rows are the search of its own manifest, and in every later
   * state of the run its rows are the same, even if its status was since set to FAILED.
   */
  lemma CompleteSnapshotsFixed(env: Env, run: seq<State>, i: nat, j: nat, d: Definition, id: CacheId)
    requires ValidEnv(env) && IsRun(env, run) && i <= j < |run|
    requires IsComplete(run[i].tables, d, id)
    ensures GoodSnapshot(env, run[i].tables, id) && GoodSnapshot(env, run[j].tables, id)
    ensures SameRowsOf(run[i].tables, run[j].tables, id)
  {
    RunKeeps(env, run, i);
    RunExtends(env, run, i, j);
    RunKeeps(env, run, j);
  }

  /** Over any stretch of a run the tables are only extended. */
  lemma {:induction false} RunExtends(env: Env, run: seq<State>, i: nat, j: nat)
    requires ValidEnv(env) && IsRun(env, run) && i <= j < |run|
    ensures Extends(run[i], run[j])
    decreases j - i
  {
    if i < j {
      RunExtends(env, run, i, j - 1);
      StepOfRun(env, run, j);
      ExtendsTransitive(run[i], run[j - 1], run[j]);
    }
  }

  lemma StepOfRun(env: Env, run: seq<State>, j: nat)
    requires ValidEnv(env) && IsRun(env, run) && 0 < j < |run|
    ensures Extends(run[j - 1], run[j])
  {
    RunKeeps(env, run, j - 1);
    assert MovesAt(env, run, j - 1);
    NextExtends(env, run[j - 1], run[j]);
  }

  /** The base of a reuse or refresh was complete when chosen, so its rows are whole when they are loaded. */
  lemma BasesAreWhole(env: Env, run: seq<State>, i: nat, w: nat)
    requires ValidEnv(env) && IsRun(env, run) && i < |run|
    requires w in run[i].workers && (run[i].workers[w].Based? || run[i].workers[w].Compared?)
    ensures var x := run[i].workers[w];
      GoodSnapshot(env, run[i].tables, x.base) && run[i].tables.runs[x.base].definition == x.d
  {
    RunKeeps(env, run, i);
    assert WorkerOk(env, run[i], run[i].workers[w]);
  }

  // ---------- when COMPLETE is final ----------

  /** Some run is about to set the snapshot to FAILED. */
  ghost predicate Doomed(s: State, id: CacheId) {
    exists w :: w in s.workers && s.workers[w] == Abandoning(id)
  }

  /** A worker that comes to abandon a snapshot was writing it, so the snapshot was not complete. */
  lemma NobodyAbandons(env: Env, s: State, w: nat, a: Action, s': State, id: CacheId)
    requires Inv(env, s) && Step(env, s, w, a, s') && id in s.completed && !Doomed(s, id)
    ensures !Doomed(s', id)
  {
    OthersStay(env, s, w, a, s');
    if w in s'.workers && s'.workers[w] == Abandoning(id) && !a.ChangeBucket? {
      AbandonsOwn(env, s, w, a, s');
      OwnerAlone(env, s, w);
    }
  }

  lemma AbandonsOwn(env: Env, s: State, w: nat, a: Action, s': State)
    requires Step(env, s, w, a, s') && w in s'.workers && s'.workers[w].Abandoning? && !a.ChangeBucket?
    ensures w in s.workers && s.workers[w].Writing() && s.workers[w].id == s'.workers[w].id
  {}

  lemma UndoomedStep(env: Env, s: State, w: nat, a: Action, s': State, d: Definition, id: CacheId)
    requires Inv(env, s) && Step(env, s, w, a, s') && IsComplete(s.tables, d, id) && !Doomed(s, id)
    ensures IsComplete(s'.tables, d, id) && !Doomed(s', id)
  {
    NobodyAbandons(env, s, w, a, s', id);
    StaysComplete(env, s, w, a, s', d, id);
  }

  /** A step moves no other worker. */
  lemma OthersStay(env: Env, s: State, w: nat, a: Action, s': State)
    requires Step(env, s, w, a, s')
    ensures forall v :: v != w ==> (v in s'.workers <==> v in s.workers)
    ensures forall v :: v != w && v in s.workers && v in s'.workers ==> s'.workers[v] == s.workers[v]
    ensures w in s'.workers && s'.workers[w].Abandoning? ==>
              (a.WriteManifest? || a.WriteResults? || a.MarkComplete?
               || (a.ChangeBucket? && w in s.workers && s'.workers[w] == s.workers[w]))
  {}

  lemma StaysComplete(env: Env, s: State, w: nat, a: Action, s': State, d: Definition, id: CacheId)
    requires Step(env, s, w, a, s') && IsComplete(s.tables, d, id)
    requires !(w in s.workers && s.workers[w] == Abandoning(id))
    ensures IsComplete(s'.tables, d, id)
  {}

  ghost predicate CompleteAt(run: seq<State>, k: int, d: Definition, id: CacheId) {
    0 <= k < |run| && IsComplete(run[k].tables, d, id)
  }

  lemma {:induction false} UndoomedStays(env: Env, run: seq<State>, i: nat, k: nat, d: Definition, id: CacheId)
    requires ValidEnv(env) && IsRun(env, run) && i <= k < |run|
    requires IsComplete(run[i].tables, d, id) && !Doomed(run[i], id)
    ensures CompleteAt(run, k, d, id) && !Doomed(run[k], id)
    decreases k - i
  {
    if i < k {
      UndoomedStays(env, run, i, k - 1, d, id);
      RunKeeps(env, run, k - 1);
      assert MovesAt(env, run, k - 1);
      var w, a :| Step(env, run[k - 1], w, a, run[k]);
      UndoomedStep(env, run[k - 1], w, a, run[k], d, id);
    }
  }

  lemma RunGrows(env: Env, run: seq<State>, w: nat, a: Action, s': State)
    requires IsRun(env, run) && Step(env, run[|run| - 1], w, a, s')
    ensures IsRun(env, run + [s'])
  {
    var longer := run + [s'];
    forall i
      ensures MovesAt(env, longer, i)
    {
      if i == |run| - 1 {
        assert Next(env, longer[i], longer[i + 1]);
      } else if 0 <= i < |run| - 1 {
        assert MovesAt(env, run, i);
      }
    }
  }

  lemma DoomedFails(env: Env, run: seq<State>, d: Definition, id: CacheId) returns (longer: seq<State>)
    requires ValidEnv(env) && IsRun(env, run)
    requires IsComplete(run[|run| - 1].tables, d, id) && Doomed(run[|run| - 1], id)
    ensures IsRun(env, longer) && run <= longer && |longer| == |run| + 1 && !CompleteAt(longer, |run|, d, id)
  {
    var s := run[|run| - 1];
    var w :| w in s.workers && s.workers[w] == Abandoning(id);
    var s' := PutWith(s, SetStatus(s.tables, id, Failed), w, Stopped);
    RunGrows(env, run, w, MarkFailed(Returns), s');
    longer := run + [s'];
  }

  /** In every continuation of the run the snapshot is COMPLETE at every later moment. */
  ghost predicate CompleteForever(env: Env, run: seq<State>, d: Definition, id: CacheId) {
    forall longer, k :: IsRun(env, longer) && run <= longer && |run| - 1 <= k < |longer| ==>
        CompleteAt(longer, k, d, id)
  }

  /**
   * COMPLETE is final exactly when no run is about to set the snapshot to FAILED, which is when the update to
   * COMPLETE took effect and then raised.
   */
  lemma CompleteForeverIff(env: Env, run: seq<State>, d: Definition, id: CacheId)
    requires ValidEnv(env) && IsRun(env, run) && IsComplete(run[|run| - 1].tables, d, id)
    ensures CompleteForever(env, run, d, id) <==> !Doomed(run[|run| - 1], id)
  {
    if Doomed(run[|run| - 1], id) {
      var longer := DoomedFails(env, run, d, id);
      assert !CompleteAt(longer, |run|, d, id);
    } else {
      forall longer, k | IsRun(env, longer) && run <= longer && |run| - 1 <= k < |longer|
        ensures CompleteAt(longer, k, d, id)
      {
        UndoomedStays(env, longer, |run| - 1, k, d, id);
      }
    }
  }

  /** COMPLETE is not final: an update that takes effect but raises is followed by the update to FAILED. */
  lemma CompleteCanFail(env: Env, s: State, w: nat)
    requires ValidEnv(env) && Inv(env, s) && w in s.workers && s.workers[w].WithResults?
    ensures exists s1, s2 :: Next(env, s, s1) && Next(env, s1, s2) &&
              IsComplete(s1.tables, s.workers[w].d, s.workers[w].id) &&
                  !IsComplete(s2.tables, s.workers[w].d, s.workers[w].id)
  {
    var x := s.workers[w];
    assert WorkerOk(env, s, x);
    var s1 := PutWith(s, SetStatus(s.tables, x.id, Complete), w, Abandoning(x.id)).(completed := s.completed + {x.id});
    assert Step(env, s, w, MarkComplete(RaisesAfter), s1);
    var s2 := ThenFails(env, s1, w, x.d);
    assert Next(env, s, s1);
  }

  lemma ThenFails(env: Env, s: State, w: nat, d: Definition) returns (s': State)
    requires w in s.workers && s.workers[w].Abandoning? && s.workers[w].id in s.tables.runs
    ensures Next(env, s, s') && !IsComplete(s'.tables, d, s.workers[w].id)
  {
    s' := PutWith(s, SetStatus(s.tables, s.workers[w].id, Failed), w, Stopped);
    assert Step(env, s, w, MarkFailed(Returns), s');
  }
}
