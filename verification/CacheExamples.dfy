/**
 * Runs of the cache that show what can happen: a snapshot that fails after it was COMPLETE, and one above the row
 * limit.
 */
module CacheExamples {
  import opened CacheProtocol
  import opened CacheSafety
  import opened CacheTables
  import opened Model
  import opened Refresh
  import opened SearchSpec
  import opened Sequences
  import opened Wrappers

  const NOTHING := State(Tables(map[], [], [], []), map[], map[], {})

  function Last(run: seq<State>): State
    requires run != []
  {
    run[|run| - 1]
  }

  ghost predicate At(env: Env, run: seq<State>, w: nat, x: Worker) {
    IsRun(env, run) && w in Last(run).workers && Last(run).workers[w] == x
  }

  lemma Extend(env: Env, run: seq<State>, w: nat, a: Action, s': State) returns (longer: seq<State>)
    requires IsRun(env, run) && Step(env, Last(run), w, a, s')
    ensures IsRun(env, longer) && run <= longer && Last(longer) == s'
  {
    RunGrows(env, run, w, a, s');
    longer := run + [s'];
  }

  /** A listing whose full search fits the report. */
  ghost predicate Fits(env: Env, d: Definition, m: seq<Entry>) {
    TotalRows(Values(d), Fresh(env, map[], d, m)) <= env.limit
  }

  /** The first job of all has searched its listing. */
  lemma FirstSearched(env: Env, d: Definition, m: seq<Entry>) returns (run: seq<State>)
    requires ValidEnv(env) && ValidDefinition(d) && Listable(m) && Fits(env, d, m)
    ensures IsRun(env, run)
    ensures Last(run) == Put(NOTHING, 0, Ready(d, m, Fresh(env, map[], d, m), |m|))
  {
    run := [NOTHING];
    assert forall i :: MovesAt(env, run, i);
    run := Extend(env, run, 0, Begin(d, m), Put(NOTHING, 0, Listed(d, m)));
    run := Extend(env, run, 0, Lookup(None), Put(NOTHING, 0, NoBase(d, m)));
    run := Extend(env, run, 0, SearchAll(true), Put(NOTHING, 0, Ready(d, m, Fresh(env, map[], d, m), |m|)));
  }

  /** One worker has moved on with a new snapshot, and nothing else has changed but the rows of that snapshot. */
  ghost predicate OnlySnapshot(s: State, s': State, w: nat, id: CacheId, row: RunRow) {
    && w in s.workers && w in s'.workers && s'.workers == s.workers[w := s'.workers[w]]
    && s'.tables.runs == s.tables.runs[id := row] && s'.tables.access == s.tables.access && s'.live == s.live
  }

  /** The statements that write a snapshot all return. */
  lemma Written(env: Env, run: seq<State>, w: nat, x: Worker, id: CacheId) returns (longer: seq<State>)
    requires x.Ready? && At(env, run, w, x) && id !in Last(run).tables.runs
    ensures At(env, longer, w, WithResults(x.d, x.m, x.results, x.refreshed, id)) && run <= longer
    ensures OnlySnapshot(Last(run), Last(longer), w, id, RunRow(x.d, 0, Pending))
  {
    var s := Last(run);
    var s1 := PutWith(s, InsertRun(s.tables, id, x.d, 0), w, Inserted(x.d, x.m, x.results, x.refreshed, id));
    longer := Extend(env, run, w, InsertPending(id, 0, Returns), s1);
    var s2 := PutWith(s1, InsertManifest(s1.tables, id, x.m), w, WithManifest(x.d, x.m, x.results, x.refreshed, id));
    longer := Extend(env, longer, w, WriteManifest(Returns), s2);
    var s3 := PutWith(s2, InsertResults(s2.tables, id, Values(x.d), x.results), w,
                      WithResults(x.d, x.m, x.results, x.refreshed, id));
    longer := Extend(env, longer, w, WriteResults(Returns), s3);
  }

  /** The update to COMPLETE takes effect, and returns or raises. */
  lemma Marked(env: Env, run: seq<State>, w: nat, x: Worker, returns_: bool) returns (longer: seq<State>)
    requires x.WithResults? && At(env, run, w, x) && x.id in Last(run).tables.runs
    ensures At(env, longer, w, if returns_ then Answered(x.d, x.m, x.results, x.refreshed, x.id, false)
              else Abandoning(x.id))
    ensures run <= longer
    ensures OnlySnapshot(Last(run), Last(longer), w, x.id, Last(run).tables.runs[x.id].(status := Complete))
  {
    var s := Last(run);
    var next := if returns_ then Answered(x.d, x.m, x.results, x.refreshed, x.id, false) else Abandoning(x.id);
    var s' := PutWith(s, SetStatus(s.tables, x.id, Complete), w, next).(completed := s.completed + {x.id});
    longer := Extend(env, run, w, MarkComplete(if returns_ then Returns else RaisesAfter), s');
  }

  // ---------- COMPLETE, then FAILED ----------

  lemma NothingFits(env: Env, d: Definition)
    ensures Fits(env, d, [])
  {
    TotalEmpty(Values(d), Fresh(env, map[], d, []));
  }

  /**
   * COMPLETE is not final in general: for every definition there is a run in which a snapshot is COMPLETE and then
   * FAILED.
   */
  lemma CompleteThenFailed(env: Env, d: Definition) returns (run: seq<State>)
    requires ValidEnv(env) && ValidDefinition(d)
    ensures IsRun(env, run) && |run| >= 2
    ensures CompleteAt(run, |run| - 2, d, 0) && !CompleteAt(run, |run| - 1, d, 0)
  {
    NothingFits(env, d);
    run := FirstSearched(env, d, []);
    run := Written(env, run, 0, Last(run).workers[0], 0);
    run := Marked(env, run, 0, Last(run).workers[0], false);
    assert Last(run).workers[0] == Abandoning(0);
    run := DoomedFails(env, run, d, 0);
  }

  // ---------- an oversized snapshot ----------

  /** A first job has searched and saved `m`. */
  lemma FirstSaved(env: Env, d: Definition, m: seq<Entry>) returns (run: seq<State>)
    requires ValidEnv(env) && ValidDefinition(d) && Listable(m) && Fits(env, d, m)
    ensures At(env, run, 0, Answered(d, m, Fresh(env, map[], d, m), |m|, 0, false))
    ensures Last(run).workers.Keys == {0} && Last(run).tables.runs == map[0 := RunRow(d, 0, Complete)]
    ensures Last(run).tables.access == [] && Last(run).live == map[]
  {
    run := FirstSearched(env, d, m);
    run := Written(env, run, 0, Last(run).workers[0], 0);
    run := Marked(env, run, 0, Last(run).workers[0], true);
  }

  /** The rows of a snapshot as a load may return them. */
  function LoadedFrom(tables: Tables, id: CacheId, d: Definition): Results {
    map t | t in Values(d) :: ResultsOf(tables, id, t)
  }

  /** A second job with another listing has found that snapshot. */
  lemma SecondBased(env: Env, d: Definition, m: seq<Entry>, run: seq<State>) returns (longer: seq<State>)
    requires ValidDefinition(d) && Listable(m) && IsRun(env, run)
    requires Last(run).workers.Keys == {0} && Last(run).tables.runs == map[0 := RunRow(d, 0, Complete)]
    ensures IsRun(env, longer) && Last(longer) == Put(Last(run), 1, Based(d, m, 0))
  {
    var s := Last(run);
    longer := Extend(env, run, 1, Begin(d, m), Put(s, 1, Listed(d, m)));
    longer := Extend(env, longer, 1, Lookup(Some(0)), Put(s, 1, Based(d, m, 0)));
  }

  /** It has loaded the snapshot, which lists something else. */
  lemma SecondLoaded(env: Env, run: seq<State>, x: Worker, m: seq<Entry>) returns (longer: seq<State>)
    requires x.Based? && At(env, run, 1, x) && ManifestOf(Last(run).tables, x.base) == m
    requires UniqueKeys(m) && UniqueKeys(x.m) && multiset(m) != multiset(x.m)
    ensures At(env, longer, 1, Rescanning(x.d, x.m, m, LoadedFrom(Last(run).tables, x.base, x.d)))
    ensures Last(longer).tables == Last(run).tables && Last(longer).live == Last(run).live
  {
    var s, cached := Last(run), LoadedFrom(Last(run).tables, x.base, x.d);
    DiffEmpty(m, x.m);
    LoadedFromIsLoaded(s.tables, x.base, x.d);
    longer := Extend(env, run, 1, LoadManifest(m), Put(s, 1, Compared(x.d, x.m, x.base, m)));
    longer := Extend(env, longer, 1, LoadResults(cached), Put(s, 1, Rescanning(x.d, x.m, m, cached)));
  }

  lemma LoadedFromIsLoaded(tables: Tables, id: CacheId, d: Definition)
    ensures IsLoaded(tables, id, d, LoadedFrom(tables, id, d))
  {}

  /** It rescans what is new to it, merges, and saves the whole. */
  lemma SecondSaved(env: Env, run: seq<State>, x: Worker) returns (longer: seq<State>)
    requires ValidEnv(env) && x.Rescanning? && At(env, run, 1, x) && Last(run).live == map[]
    requires Last(run).tables.runs.Keys == {0} && Fits(env, x.d, DiffManifests(x.previous, x.m).changed)
    ensures IsRun(env, longer) && 1 in Last(longer).workers
    ensures var y := Last(longer).workers[1]; y.Answered? && y.d == x.d && y.m == x.m && y.id == 1 && !y.reused
    ensures IsComplete(Last(longer).tables, x.d, 1) && Last(longer).tables.access == Last(run).tables.access
  {
    var s, diff := Last(run), DiffManifests(x.previous, x.m);
    var merged := MergeRefreshed(x.cached, Fresh(env, map[], x.d, diff.changed), diff.Affected());
    longer := Extend(env, run, 1, Rescan(true), Put(s, 1, Ready(x.d, x.m, merged, |diff.changed|)));
    longer := Written(env, longer, 1, Last(longer).workers[1], 1);
    longer := Marked(env, longer, 1, Last(longer).workers[1], true);
  }

  /** The saved rows are those of the answer. */
  lemma SavedRows(env: Env, run: seq<State>, w: nat)
    requires ValidEnv(env) && IsRun(env, run) && w in Last(run).workers
    requires Last(run).workers[w].Answered? && !Last(run).workers[w].reused
    ensures var s, x := Last(run), Last(run).workers[w];
      && ManifestOf(s.tables, x.id) == x.m
      && TotalRows(Values(x.d), LoadedFrom(s.tables, x.id, x.d)) == TotalRows(Values(x.d), x.results)
      && TotalRows(Values(x.d), x.results) == TotalRows(Values(x.d), Fresh(env, map[], x.d, x.m))
  {
    RunKeeps(env, run, |run| - 1);
    var s, x := Last(run), Last(run).workers[w];
    assert WorkerOk(env, s, x);
    forall t | t in Values(x.d)
      ensures |ResultsOf(s.tables, x.id, t)| == |x.results[t]|
    {
      MapFilterLength(x.results[t], NormalRow);
    }
    TotalCongruence(Values(x.d), LoadedFrom(s.tables, x.id, x.d), x.results);
    CorrectIsFresh(env, map[], x.d, x.m, x.results);
    SameTotal(x.d, x.results, Fresh(env, map[], x.d, x.m));
  }

  /** A first job has saved `m`, and nobody else has done anything. */
  ghost predicate SavedOnce(env: Env, run: seq<State>, d: Definition, m: seq<Entry>) {
    && IsRun(env, run) && Last(run).workers.Keys == {0} && Last(run).tables.runs == map[0 := RunRow(d, 0, Complete)]
    && Last(run).tables.access == [] && Last(run).live == map[] && ManifestOf(Last(run).tables, 0) == m
  }

  lemma SavedFirst(env: Env, d: Definition, m: seq<Entry>) returns (run: seq<State>)
    requires ValidEnv(env) && ValidDefinition(d) && Listable(m) && Fits(env, d, m)
    ensures SavedOnce(env, run, d, m)
  {
    run := FirstSaved(env, d, m);
    SavedRows(env, run, 0);
  }

  /** The second job, from its listing to the loaded snapshot. */
  lemma SecondStarted(env: Env, d: Definition, m: seq<Entry>, m': seq<Entry>, run: seq<State>)
    returns (longer: seq<State>)
    requires SavedOnce(env, run, d, m) && ValidDefinition(d) && Listable(m) && Listable(m') &&
              multiset(m) != multiset(m')
    ensures At(env, longer, 1, Rescanning(d, m', m, LoadedFrom(Last(run).tables, 0, d)))
    ensures Last(longer).tables == Last(run).tables && Last(longer).live == map[]
  {
    longer := SecondBased(env, d, m', run);
    longer := SecondLoaded(env, longer, Based(d, m', 0), m);
  }

  /** Both jobs have saved their snapshots. */
  lemma BothSaved(env: Env, d: Definition, m: seq<Entry>, m': seq<Entry>) returns (run: seq<State>)
    requires ValidEnv(env) && ValidDefinition(d) && Listable(m) && Listable(m')
    requires Fits(env, d, m) && Fits(env, d, DiffManifests(m, m').changed) && !Fits(env, d, m')
    ensures IsRun(env, run) && 1 in Last(run).workers
    ensures var y := Last(run).workers[1]; y.Answered? && y.d == d && y.m == m' && y.id == 1 && !y.reused
    ensures IsComplete(Last(run).tables, d, 1) && Last(run).tables.access == []
  {
    run := SavedFirst(env, d, m);
    FullSearchSame(env, d, m, m');
    run := SecondJob(env, d, m, m', run);
  }

  /** The second job, from its listing to its snapshot. */
  lemma SecondJob(env: Env, d: Definition, m: seq<Entry>, m': seq<Entry>, run: seq<State>) returns (longer: seq<State>)
    requires ValidEnv(env) && SavedOnce(env, run, d, m) && ValidDefinition(d) && Listable(m) && Listable(m')
    requires multiset(m) != multiset(m') && Fits(env, d, DiffManifests(m, m').changed)
    ensures IsRun(env, longer) && 1 in Last(longer).workers
    ensures var y := Last(longer).workers[1]; y.Answered? && y.d == d && y.m == m' && y.id == 1 && !y.reused
    ensures IsComplete(Last(longer).tables, d, 1) && Last(longer).tables.access == []
  {
    longer := SecondStarted(env, d, m, m', run);
    longer := SecondSaved(env, longer, Rescanning(d, m', m, LoadedFrom(Last(run).tables, 0, d)));
  }

  /**
   * A snapshot above the row limit can be COMPLETE: whenever a first listing fits the report, and what a second adds
   * to it fits, but the second as a whole does not. The job that saved it is refused at the end.
   */
  lemma OversizedSnapshot(env: Env, d: Definition, m: seq<Entry>, m': seq<Entry>) returns (run: seq<State>)
    requires ValidEnv(env) && ValidDefinition(d) && Listable(m) && Listable(m')
    requires Fits(env, d, m) && Fits(env, d, DiffManifests(m, m').changed) && !Fits(env, d, m')
    ensures IsRun(env, run)
    ensures var s := Last(run);
      && IsComplete(s.tables, d, 1) && ManifestOf(s.tables, 1) == m'
      && TotalRows(Values(d), LoadedFrom(s.tables, 1, d)) > env.limit
      && 1 in s.workers && s.workers[1] == Stopped && s.tables.access == []
  {
    run := BothSaved(env, d, m, m');
    SavedRows(env, run, 1);
    run := Extend(env, run, 1, Finish(Returns), Put(Last(run), 1, Stopped));
  }

  lemma FullSearchSame(env: Env, d: Definition, m: seq<Entry>, m': seq<Entry>)
    requires ValidEnv(env) && Listable(m) && Fits(env, d, m) && !Fits(env, d, m')
    ensures multiset(m) != multiset(m')
  {
    if multiset(m) == multiset(m') {
      FullSearchCanonical(m, m', Values(d), MatcherAt(env, map[], d));
    }
  }
}
