/**
 * The cache object of one worker: its queries and statements over the shared tables. Between any two of them other
 * workers run statements of their own, in any way that a schedule can make them.
 */
module SearchCache {
  import opened CacheProtocol
  import opened CacheSafety
  import opened CacheTables
  import opened CacheTimes
  import opened Model
  import opened Refresh
  import opened SearchSpec
  import opened Sequences
  import opened Wrappers

  lemma {:induction false} LatestExists(tables: Tables, d: Definition, ids: set<CacheId>) returns (latest: CacheId)
    requires ids != {} && forall id :: id in ids ==> IsComplete(tables, d, id)
    ensures latest in ids
    ensures forall id :: id in ids && id in tables.runs && latest in tables.runs ==>
              tables.runs[id].created <= tables.runs[latest].created
    decreases |ids|
  {
    latest :| latest in ids;
    var rest := ids - {latest};
    if rest != {} {
      var other := LatestExists(tables, d, rest);
      latest := if tables.runs[other].created <= tables.runs[latest].created then latest else other;
    }
    assert forall id :: id in ids ==> id in rest || rest == ids - {id};
  }

  /** `uuid4`: some number that no run has. */
  method NewId(ids: set<CacheId>) returns (id: CacheId)
    ensures id !in ids
  {
    id := 0;
    var rest := ids;
    while rest != {}
      invariant rest <= ids && forall other :: other in ids ==> other in rest || other < id
      decreases |rest|
    {
      var x :| x in rest;
      id, rest := if x < id then id else x + 1, rest - {x};
    }
  }

  /** The state after the manifest statement; without entries nothing is written and it returns. */
  function ManifestWritten(s: State, w: nat, x: Worker, o: Outcome): State
    requires x.Inserted?
  {
    PutWith(s, if x.m != [] && TookEffect(o) then InsertManifest(s.tables, x.id, x.m) else s.tables, w,
            if x.m == [] || o == Returns then WithManifest(x.d, x.m, x.results, x.refreshed, x.id)
                else Abandoning(x.id))
  }

  lemma ManifestStep(env: Env, s: State, w: nat, x: Worker, o: Outcome)
    requires x.Inserted? && w in s.workers && s.workers[w] == x
    ensures Step(env, s, w, CacheProtocol.WriteManifest(if x.m == [] then Returns else o), ManifestWritten(s, w, x, o))
  {
    if x.m == [] {
      assert s.tables.manifests + [] == s.tables.manifests;
    }
  }

  /** The state after the results statement; without rows nothing is written and it returns. */
  function ResultsWritten(s: State, w: nat, x: Worker, o: Outcome): State
    requires x.WithManifest?
  {
    var rows := Flatten(x.id, Values(x.d), x.results);
    PutWith(s, if rows != [] && TookEffect(o) then InsertResults(s.tables, x.id, Values(x.d), x.results) else s.tables,
            w,
            if rows == [] || o == Returns then WithResults(x.d, x.m, x.results, x.refreshed, x.id)
                else Abandoning(x.id))
  }

  lemma ResultsStep(env: Env, s: State, w: nat, x: Worker, o: Outcome)
    requires x.WithManifest? && w in s.workers && s.workers[w] == x
    ensures var rows := Flatten(x.id, Values(x.d), x.results);
      Step(env, s, w, CacheProtocol.WriteResults(if rows == [] then Returns else o), ResultsWritten(s, w, x, o))
  {
    var rows := Flatten(x.id, Values(x.d), x.results);
    if rows == [] {
      assert s.tables.results + rows == s.tables.results;
    }
  }

  /** How the statements of `persist_snapshot` end, should they be reached. */
  datatype Plan = Plan(insert: Outcome, manifest: Outcome, results: Outcome, complete: Outcome, failed: Outcome)
  {
    /** Every statement before the update to FAILED returns. */
    predicate Undisturbed() { insert == manifest == results == complete == Returns }
  }

  /** A step that another worker would like to make. */
  datatype Request = Request(worker: nat, action: Action, next: State)

  class BigQuerySearchCache {
    const env: Env
    /** What the others try to do before each statement of this worker. */
    const schedule: nat -> seq<Request>
    var clock: nat
    /** The tables, the bucket, and where everybody stands. */
    var state: State
    /** The states of the whole system up to now. */
    ghost var run: seq<State>

    ghost predicate Valid()
      reads this
    {
      ValidEnv(env) && IsRun(env, run) && run[|run| - 1] == state
    }

    /** What worker `w` is doing. */
    predicate At(w: nat, x: Worker)
      reads this
    {
      w in state.workers && state.workers[w] == x
    }

    constructor (env: Env, schedule: nat -> seq<Request>)
      requires ValidEnv(env)
      ensures Valid() && this.env == env && this.schedule == schedule && Init(state)
    {
      this.env, this.schedule, clock := env, schedule, 0;
      state := State(Tables(map[], [], [], []), map[], map[], {});
      run := [State(Tables(map[], [], [], []), map[], map[], {})];
    }

    /** Other workers run some statements, the bucket changes, new workers begin, and some crash. */
    method Others(w: nat)
      requires Valid()
      modifies this
      ensures Valid() && old(run) <= run && SameAt(w, old(state).workers, state.workers)
    {
      var wanted := schedule(clock);
      clock := clock + 1;
      for k := 0 to |wanted|
        invariant Valid() && old(run) <= run && SameAt(w, old(state).workers, state.workers)
      {
        var v, action, next := wanted[k].worker, wanted[k].action, wanted[k].next;
        if v != w && Step(env, state, v, action, next) {
          OthersStay(env, state, v, action, next);
          RunGrows(env, run, v, action, next);
          state, run := next, run + [next];
        }
      }
    }

    /** A step of the worker itself. */
    method Move(ghost w: nat, ghost a: Action, next: State)
      requires Valid() && Step(env, state, w, a, next)
      modifies this
      ensures Valid() && state == next && old(run) <= run
    {
      RunGrows(env, run, w, a, next);
      state, run := next, run + [next];
    }

    // ---------- queries ----------

    /** `latest_completed_run`. */
    method LatestCompletedRun(d: Definition) returns (found: Option<CacheId>)
      ensures found.None? ==> forall id :: !IsComplete(state.tables, d, id)
      ensures found.Some? ==> IsLatest(state.tables, d, found.value)
    {
      var tables := state.tables;
      var complete := set id | id in tables.runs && IsComplete(tables, d, id);
      if complete == {} {
        assert forall id :: IsComplete(tables, d, id) ==> id in complete;
        return None;
      }
      ghost var latest := LatestExists(tables, d, complete);
      assert IsLatest(tables, d, latest);
      var id :| id in complete && IsLatest(tables, d, id);
      found := Some(id);
    }

    /** `load_manifest`. */
    method LoadManifest(id: CacheId) returns (entries: seq<Entry>)
      ensures multiset(entries) == multiset(ManifestOf(state.tables, id))
    {
      entries := MapFilter(state.tables.manifests, EntryIn(id));
    }

    /** `load_results`: the rows of other snapshots and of other terms are passed over. */
    method LoadResults(id: CacheId, d: Definition) returns (results: Results)
      ensures IsLoaded(state.tables, id, d, results)
    {
      var rows := state.tables.results;
      results := map t | t in Values(d) :: [];
      for i := 0 to |rows|
        invariant LoadedUpTo(rows, i, id, d, results)
      {
        var row := rows[i];
        LoadedStep(rows, i, id, d, results);
        if row.cacheId == id && row.term in results {
          results := results[row.term := results[row.term] + [Load(row)]];
        }
      }
      assert rows[..|rows|] == rows;
    }

    // ---------- statements ----------

    /** Appends the PENDING row of a new snapshot. */
    method InsertPending(w: nat, d: Definition, m: seq<Entry>, results: Results, n: nat, now: nat, outcome: Outcome)
      returns (id: CacheId)
      requires Valid() && At(w, Ready(d, m, results, n))
      modifies this
      ensures Valid() && old(run) <= run && id !in old(state).tables.runs
      ensures At(w, if outcome == Returns then Inserted(d, m, results, n, id) else Stopped)
      ensures state.live == old(state).live
      ensures var before := old(state).tables;
        state.tables == if TookEffect(outcome) then before.(runs := before.runs[id := RunRow(d, now, Pending)])
            else before
    {
      id := NewId(state.tables.runs.Keys);
      Move(w, CacheProtocol.InsertPending(id, now, outcome),
           PutWith(state, if TookEffect(outcome) then InsertRun(state.tables, id, d, now) else state.tables, w,
                   if outcome == Returns then Inserted(d, m, results, n, id) else Stopped));
    }

    /** Appends the manifest rows, if there are any. */
    method WriteManifest(w: nat, x: Worker, outcome: Outcome) returns (ok: bool)
      requires Valid() && x.Inserted? && At(w, x)
      modifies this
      ensures Valid() && old(run) <= run && ok == (x.m == [] || outcome == Returns)
      ensures state == ManifestWritten(old(state), w, x, outcome)
    {
      ok := x.m == [] || outcome == Returns;
      ManifestStep(env, state, w, x, outcome);
      Move(w, CacheProtocol.WriteManifest(if x.m == [] then Returns else outcome),
           ManifestWritten(state, w, x, outcome));
    }

    /** Appends the result rows, if there are any. */
    method WriteResults(w: nat, x: Worker, outcome: Outcome) returns (ok: bool)
      requires Valid() && x.WithManifest? && At(w, x)
      modifies this
      ensures Valid() && old(run) <= run && ok == (Flatten(x.id, Values(x.d), x.results) == [] || outcome == Returns)
      ensures state == ResultsWritten(old(state), w, x, outcome)
    {
      var rows := Flatten(x.id, Values(x.d), x.results);
      ok := rows == [] || outcome == Returns;
      ResultsStep(env, state, w, x, outcome);
      Move(w, CacheProtocol.WriteResults(if rows == [] then Returns else outcome),
           ResultsWritten(state, w, x, outcome));
    }

    /** Updates the run to COMPLETE. */
    method MarkComplete(w: nat, x: Worker, outcome: Outcome)
      requires Valid() && x.WithResults? && At(w, x)
      modifies this
      ensures Valid() && old(run) <= run
      ensures At(w, if outcome == Returns then Answered(x.d, x.m, x.results, x.refreshed, x.id, false)
                else Abandoning(x.id))
      ensures state.workers == old(state).workers[w := state.workers[w]]
      ensures var before := old(state).tables;
        state.tables == if !TookEffect(outcome) || x.id !in before.runs then before
                        else before.(runs := before.runs[x.id := before.runs[x.id].(status := Complete)])
    {
      Move(w, CacheProtocol.MarkComplete(outcome),
           PutWith(state, if TookEffect(outcome) then SetStatus(state.tables, x.id, Complete) else state.tables, w,
                   if outcome == Returns then Answered(x.d, x.m, x.results, x.refreshed, x.id, false)
                       else Abandoning(x.id))
           .(completed := if TookEffect(outcome) then state.completed + {x.id} else state.completed));
    }

    /** Updates the run to FAILED. */
    method MarkFailed(w: nat, id: CacheId, outcome: Outcome)
      requires Valid() && At(w, Abandoning(id))
      modifies this
      ensures Valid() && old(run) <= run && At(w, Stopped)
      ensures var before := old(state).tables;
        state.tables == if !TookEffect(outcome) || id !in before.runs then before
                        else before.(runs := before.runs[id := before.runs[id].(status := Failed)])
    {
      Move(w, CacheProtocol.MarkFailed(outcome),
           PutWith(state, if TookEffect(outcome) then SetStatus(state.tables, id, Failed) else state.tables,
                   w, Stopped));
    }

    /** `record_access`, after the rows were found to fit the report. */
    method RecordAccess(w: nat, x: Worker, outcome: Outcome)
      requires Valid() && At(w, x) && x.Answered? && TotalRows(Values(x.d), x.results) <= env.limit
      modifies this
      ensures Valid() && old(run) <= run
      ensures At(w, if outcome == Returns then Finished(x.d, x.m, x.results, x.id) else Stopped)
      ensures var row := AccessRow(x.d, x.id, x.reused, x.refreshed);
        state.tables == if TookEffect(outcome) then old(state).tables.(access := old(state).tables.access + [row])
                        else old(state).tables
    {
      var row := AccessRow(x.d, x.id, x.reused, x.refreshed);
      Move(w, Finish(outcome),
           PutWith(state, if TookEffect(outcome) then state.tables.(access := state.tables.access + [row])
               else state.tables,
                   w, if outcome == Returns then Finished(x.d, x.m, x.results, x.id) else Stopped));
    }

    // ---------- persisting a snapshot ----------

    /** The last statement of a snapshot that is not to be abandoned. */
    method CompleteSnapshot(w: nat, x: Worker, outcome: Outcome) returns (ok: bool)
      requires Valid() && x.WithResults? && At(w, x)
      modifies this
      ensures Valid() && old(run) <= run && ok == (outcome == Returns)
      ensures At(w, if ok then Answered(x.d, x.m, x.results, x.refreshed, x.id, false) else Abandoning(x.id))
      ensures ok ==> IsComplete(state.tables, x.d, x.id) && !Doomed(state, x.id)
    {
      Others(w);
      OnlyOwner(env, run, w);
      MarkComplete(w, x, outcome);
      ok := outcome == Returns;
    }

    /** The statements after the PENDING row, up to the first that raises. */
    method WriteSnapshot(w: nat, x: Worker, plan: Plan) returns (ok: bool)
      requires Valid() && x.Inserted? && At(w, x)
      modifies this
      ensures Valid() && old(run) <= run
      ensures plan.Undisturbed() ==> ok
      ensures At(w, if ok then Answered(x.d, x.m, x.results, x.refreshed, x.id, false) else Abandoning(x.id))
      ensures ok ==> IsComplete(state.tables, x.d, x.id) && !Doomed(state, x.id)
    {
      Others(w);
      ok := WriteManifest(w, x, plan.manifest);
      if !ok {
        return;
      }
      Others(w);
      ok := WriteResults(w, state.workers[w], plan.results);
      if !ok {
        return;
      }
      ok := CompleteSnapshot(w, state.workers[w], plan.complete);
    }

    /**
     * `persist_snapshot`, while others go on: it succeeds when every statement before the update to FAILED returns,
     * and then a new snapshot is complete and holds the given manifest and rows; when it fails after the PENDING row
     * and the update to FAILED returns, the snapshot is not complete.
     */
    method PersistSnapshot(w: nat, d: Definition, m: seq<Entry>, results: Results, n: nat, now: nat, plan: Plan)
      returns (ok: bool, id: CacheId)
      requires Valid() && At(w, Ready(d, m, results, n))
      modifies this
      ensures Valid() && old(run) <= run && id !in old(state).tables.runs
      ensures plan.Undisturbed() ==> ok
      ensures At(w, if ok then Answered(d, m, results, n, id, false) else Stopped)
      ensures ok ==> IsComplete(state.tables, d, id) && SnapshotIs(state.tables, id, d, m, results)
      ensures ok ==> GoodSnapshot(env, state.tables, id) && !Doomed(state, id)
      ensures id in state.tables.runs ==> state.tables.runs[id].created == now
      ensures !ok && plan.insert == plan.failed == Returns ==> !IsComplete(state.tables, d, id)
    {
      Others(w);
      RunsRemain(env, old(run), run);
      id := InsertPending(w, d, m, results, n, now, plan.insert);
      if plan.insert != Returns {
        return false, id;
      }
      ghost var begun := run;
      ok := WriteSnapshot(w, state.workers[w], plan);
      if ok {
        AnsweredSnapshot(env, run, w);
      } else {
        Others(w);
        MarkFailed(w, id, plan.failed);
      }
      TimesFixed(env, run, |begun| - 1, |run| - 1, id);
    }
  }

  /** Nobody but the worker that writes a snapshot can come to fail it. */
  lemma OnlyOwner(env: Env, run: seq<State>, w: nat)
    requires ValidEnv(env) && IsRun(env, run) && w in run[|run| - 1].workers && run[|run| - 1].workers[w].Writing()
    ensures var s, x := run[|run| - 1], run[|run| - 1].workers[w];
      && x.id in s.tables.runs && s.tables.runs[x.id].definition == x.d
      && forall v :: v != w && v in s.workers ==> s.workers[v] != Abandoning(x.id)
  {
    RunKeeps(env, run, |run| - 1);
    assert WorkerOk(env, run[|run| - 1], run[|run| - 1].workers[w]);
    OwnerAlone(env, run[|run| - 1], w);
  }

  /** Runs are never removed. */
  lemma RunsRemain(env: Env, run: seq<State>, longer: seq<State>)
    requires ValidEnv(env) && IsRun(env, longer) && run <= longer && run != []
    ensures run[|run| - 1].tables.runs.Keys <= longer[|longer| - 1].tables.runs.Keys
  {
    RunExtends(env, longer, |run| - 1, |longer| - 1);
  }

  /** A worker that has just completed its snapshot: the snapshot is whole and nobody is about to fail it. */
  lemma AnsweredSnapshot(env: Env, run: seq<State>, w: nat)
    requires ValidEnv(env) && IsRun(env, run)
    requires w in run[|run| - 1].workers && run[|run| - 1].workers[w].Answered? && !run[|run| - 1].workers[w].reused
    ensures var s, x := run[|run| - 1], run[|run| - 1].workers[w];
      SnapshotIs(s.tables, x.id, x.d, x.m, x.results) && GoodSnapshot(env, s.tables, x.id)
  {
    RunKeeps(env, run, |run| - 1);
    assert WorkerOk(env, run[|run| - 1], run[|run| - 1].workers[w]);
  }

  /** The dict after the first `i` rows of the query. */
  ghost predicate LoadedUpTo(rows: seq<StoredRow>, i: nat, id: CacheId, d: Definition, results: Results)
    requires i <= |rows|
  {
    && results.Keys == (set t | t in Values(d))
    && forall t :: t in results ==> results[t] == MapFilter(rows[..i], RowIn(id, t))
  }

  lemma LoadedStep(rows: seq<StoredRow>, i: nat, id: CacheId, d: Definition, results: Results)
    requires i < |rows| && LoadedUpTo(rows, i, id, d, results)
    ensures var row := rows[i];
      if row.cacheId == id && row.term in results
      then LoadedUpTo(rows, i + 1, id, d, results[row.term := results[row.term] + [Load(row)]])
      else LoadedUpTo(rows, i + 1, id, d, results)
  {
    forall t {
      RowsUpTo(rows, i, id, t);
    }
  }

  lemma RowsUpTo(rows: seq<StoredRow>, i: nat, id: CacheId, t: string)
    requires i < |rows|
    ensures MapFilter(rows[..i + 1], RowIn(id, t)) ==
            MapFilter(rows[..i], RowIn(id, t)) +
            if rows[i].cacheId == id && rows[i].term == t then [Load(rows[i])] else []
  {
    assert rows[..i + 1] == rows[..i] + [rows[i]];
    MapFilterConcat(rows[..i], [rows[i]], RowIn(id, t));
    assert MapFilter([rows[i]], RowIn(id, t)) == AsSeq(RowIn(id, t)(rows[i])) + MapFilter([], RowIn(id, t));
  }
}
