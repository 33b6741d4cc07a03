/** One job's search: full, reused or incremental, then the row limit and the access record. */
module Executor {
  import opened CacheProtocol
  import opened CacheSafety
  import opened CacheTables
  import opened ContentSearch
  import opened FilenameSearch
  import opened Model
  import LineScan
  import opened Ordering
  import opened Policy
  import opened Refresh
  import opened SearchCache
  import opened SearchSpec
  import opened Sequences
  import opened Wrappers
  import SearchEngine

  // ---------- the cache definition ----------

  function SortStrings(xs: seq<string>): seq<string> { SortOn(xs, (s: string) => s, StringLe) }

  /** `_cache_definition`: the exclusions of the scope count only for a content search, in any order. */
  function CacheDefinition(searchType: SearchType, project: string, roots: seq<(string, string)>,
                           terms: seq<SearchTerm>, keywords: seq<string>, patterns: seq<string>): Definition {
    Definition(searchType, project, roots, terms,
               if searchType == Content then Some((SortStrings(keywords), SortStrings(patterns))) else None)
  }

  lemma SortStringsIff(xs: seq<string>, ys: seq<string>)
    ensures SortStrings(xs) == SortStrings(ys) <==> multiset(xs) == multiset(ys)
  {
    StringLeIsTotalOrder();
    if multiset(xs) == multiset(ys) {
      SortOnDetermined(xs, ys, (s: string) => s, StringLe);
    }
  }

  /** A definition holds what the job asks for; the exclusions of a content search are sorted. */
  lemma DefinitionFields(st: SearchType, project: string, roots: seq<(string, string)>, terms: seq<SearchTerm>,
                         keywords: seq<string>, patterns: seq<string>)
    ensures var d := CacheDefinition(st, project, roots, terms, keywords, patterns);
      && d.searchType == st && d.project == project && d.roots == roots && d.terms == terms
      && (d.exclusions.Some? <==> st == Content)
      && (d.exclusions.Some? ==> multiset(d.exclusions.value.0) == multiset(keywords) &&
                                 multiset(d.exclusions.value.1) == multiset(patterns))
  {}

  /** Two jobs share snapshots exactly when they search the same things in the same way. */
  lemma SameDefinitionIff(st: SearchType, project: string, roots: seq<(string, string)>, terms: seq<SearchTerm>,
                          keywords: seq<string>, patterns: seq<string>,
                          st': SearchType, project': string, roots': seq<(string, string)>, terms': seq<SearchTerm>,
                          keywords': seq<string>, patterns': seq<string>)
    ensures CacheDefinition(st, project, roots, terms, keywords, patterns) ==
            CacheDefinition(st', project', roots', terms', keywords', patterns') <==>
            && st == st' && project == project' && roots == roots' && terms == terms'
            && (st == Content ==>
                 multiset(keywords) == multiset(keywords') && multiset(patterns) == multiset(patterns'))
  {
    SortStringsIff(keywords, keywords');
    SortStringsIff(patterns, patterns');
  }

  // ---------- the two kinds of search as one ----------

  /** What the outside world contributes to searches: character classes, case folding, and object contents. */
  datatype World = World(lang: Language, casefold: char -> char, history: History)

  /** A content search looks a value up to learn whether it is a literal or a regular expression. */
  ghost function Contribution(world: World): (Live, Definition, Entry, string) -> Option<Row> {
    (live: Live, d: Definition, e: Entry, t: string) =>
      if d.searchType == Content then ContentMatch(world.lang, world.history, live, e, TermOf(d.terms, t))
      else FilenameMatch(world.casefold, e, t)
  }

  ghost function EnvOf(world: World, limit: nat): Env { Env(Contribution(world), limit) }

  /** Rows carry the generation of their entry. */
  ghost predicate Stamped(env: Env) {
    forall live, d, e, t :: env.contributes(live, d, e, t).Some? ==>
        env.contributes(live, d, e, t).value.generation == e.generation
  }

  lemma ContributionProperties(world: World, live: Live, d: Definition, e: Entry, t: string)
    ensures var r := Contribution(world)(live, d, e, t);
      r.Some? ==> r.value.Key() == e.Key() && r.value.generation == e.generation
  {
    if d.searchType == Content {
      assert Contribution(world)(live, d, e, t) == ContentMatch(world.lang, world.history, live, e, TermOf(d.terms, t));
    } else {
      assert Contribution(world)(live, d, e, t) == FilenameMatch(world.casefold, e, t);
    }
  }

  /**
   * Both searches report rows under the key and generation of their entry, and pinned reads do not depend on the
   * bucket.
   */
  lemma EnvIsValid(world: World, limit: nat)
    ensures ValidEnv(EnvOf(world, limit)) && Stamped(EnvOf(world, limit))
  {
    var env := EnvOf(world, limit);
    forall live, d, e, t | env.contributes(live, d, e, t).Some?
      ensures env.contributes(live, d, e, t).value.Key() == e.Key()
      ensures env.contributes(live, d, e, t).value.generation == e.generation
    {
      ContributionProperties(world, live, d, e, t);
    }
    forall live, d
      ensures Keyed(MatcherAt(env, live, d))
    {
      forall e, t | MatcherAt(env, live, d)(e, t).Some?
        ensures MatcherAt(env, live, d)(e, t).value.Key() == e.Key()
      {
        assert MatcherAt(env, live, d)(e, t) == env.contributes(live, d, e, t);
      }
    }
    forall now, later, d, e: Entry, t | e.generation > 0
      ensures env.contributes(now, d, e, t) == env.contributes(later, d, e, t)
    {}
  }

  ghost predicate SameMatches(a: Matcher, b: Matcher) { forall e, t :: a(e, t) == b(e, t) }

  lemma RowsForCongruence(entries: seq<Entry>, t: string, a: Matcher, b: Matcher)
    requires SameMatches(a, b)
    ensures RowsFor(entries, t, a) == RowsFor(entries, t, b)
  {
    MapFilterCongruence(entries, (e: Entry) => a(e, t), (e: Entry) => b(e, t));
  }

  lemma FullSearchCongruence(entries: seq<Entry>, terms: seq<string>, a: Matcher, b: Matcher)
    requires SameMatches(a, b)
    ensures FullSearch(entries, terms, a) == FullSearch(entries, terms, b)
  {
    var x, y := FullSearch(entries, terms, a), FullSearch(entries, terms, b);
    forall t | t in x
      ensures x[t] == y[t]
    {
      RowsForCongruence(entries, t, a, b);
    }
  }

  /** Only a content search reads objects. */
  ghost predicate ReadsSucceed(d: Definition, m: seq<Entry>, readable: Entry -> bool) {
    d.searchType == Content ==> forall e :: e in m ==> readable(e)
  }

  /** `run_search`, bound to the kind of search that the request asks for. */
  method RunSearch(world: World, live: Live, readable: Entry -> bool, d: Definition, m: seq<Entry>, maxWorkers: nat,
                   limit: nat)
    returns (r: Result<Results, SearchError>)
    requires maxWorkers > 0 && UniqueKeys(m) && ValidDefinition(d) && LineScan.ValidFinder(world.lang.alphabet)
    ensures var found := CacheProtocol.RunSearch(EnvOf(world, limit), live, d, m, ReadsSucceed(d, m, readable));
      if r.Ok? then found == Some(r.value) else found == None
  {
    ghost var matcher := MatcherAt(EnvOf(world, limit), live, d);
    if d.searchType == Content {
      var source := SearchEngine.Source(world.lang, world.history, live, readable);
      assert SameMatches(SearchEngine.ContentMatcher(source, d.terms), matcher);
      FullSearchCongruence(m, Values(d), SearchEngine.ContentMatcher(source, d.terms), matcher);
      r := SearchEngine.Search(source, m, d.terms, maxWorkers, limit);
    } else {
      assert SameMatches(FilenameMatcher(world.casefold), matcher);
      FullSearchCongruence(m, Values(d), FilenameMatcher(world.casefold), matcher);
      r := SearchFilenames(m, Values(d), world.casefold, limit);
    }
  }

  // ---------- the cache decision ----------

  datatype Execution = Execution(results: Results, id: CacheId, refreshed: nat, reused: bool)

  datatype ExecutionError = SearchFailed(error: SearchError) | PersistFailed | ReportTooLarge | AccessFailed

  /** A validated request, its listing, and what the surroundings do while it is executed. */
  datatype Job = Job(
    d: Definition, m: seq<Entry>, world: World, limits: TermLimits, readable: Entry -> bool,
    maxWorkers: nat, limit: nat, now: nat, plan: Plan)

  ghost predicate ValidJob(q: Job) {
    && q.maxWorkers > 0 && LineScan.ValidFinder(q.world.lang.alphabet)
    && TermsAccepted(q.d.searchType, q.limits, q.d.terms) && Listable(q.m)
  }

  lemma JobTerms(q: Job)
    requires ValidJob(q)
    ensures ValidDefinition(q.d)
  {
    AcceptedTerms(q.d.searchType, q.limits, q.d.terms);
  }

  ghost predicate Serves(cache: BigQuerySearchCache, q: Job)
    reads cache
  {
    cache.Valid() && cache.env == EnvOf(q.world, q.limit)
  }

  /** The search of the listed manifest; listed generations are pinned, so the bucket may change in any way. */
  ghost function FullResults(q: Job): Results {
    Fresh(EnvOf(q.world, q.limit), map[], q.d, q.m)
  }

  /** A full search of the listed manifest fits the report limit. */
  ghost predicate FitsReport(q: Job) { TotalRows(Values(q.d), FullResults(q)) <= q.limit }

  /** Nothing but the row limit can make the execution fail. */
  ghost predicate AllGoesWell(q: Job) { ReadsSucceed(q.d, q.m, q.readable) && q.plan.Undisturbed() }

  lemma FreshPinned(env: Env, live: Live, d: Definition, m: seq<Entry>)
    requires ValidEnv(env) && forall e :: e in m ==> e.generation > 0
    ensures Fresh(env, live, d, m) == Fresh(env, map[], d, m)
  {
    forall t | t in Values(d)
      ensures Fresh(env, live, d, m)[t] == Fresh(env, map[], d, m)[t]
    {
      PinnedRows(env, live, d, m, t);
    }
  }

  /** A job without a base: searches the whole listing. */
  method SearchListed(cache: BigQuerySearchCache, w: nat, q: Job) returns (r: Result<Results, SearchError>)
    requires Serves(cache, q) && ValidJob(q) && cache.At(w, NoBase(q.d, q.m))
    modifies cache
    ensures Serves(cache, q) && old(cache.run) <= cache.run
    ensures AllGoesWell(q) && FitsReport(q) ==> r.Ok?
    ensures cache.At(w, if r.Ok? then Ready(q.d, q.m, r.value, |q.m|) else Stopped)
  {
    JobTerms(q);
    cache.Others(w);
    FreshPinned(cache.env, cache.state.live, q.d, q.m);
    r := RunSearch(q.world, cache.state.live, q.readable, q.d, q.m, q.maxWorkers, q.limit);
    cache.Move(w, SearchAll(ReadsSucceed(q.d, q.m, q.readable)),
               Put(cache.state, w, if r.Ok? then Ready(q.d, q.m, r.value, |q.m|) else Stopped));
  }

  /** A new snapshot, complete and not about to be failed, holds the listing and the results. */
  ghost predicate Saved(before: Tables, run: seq<State>, q: Job, x: Execution) {
    && run != [] && !x.reused && x.id !in before.runs
    && IsComplete(run[|run| - 1].tables, q.d, x.id) && SnapshotIs(run[|run| - 1].tables, x.id, q.d, q.m, x.results)
    && !Doomed(run[|run| - 1], x.id) && run[|run| - 1].tables.runs[x.id].created == q.now
  }

  /** Saves results under a new snapshot. */
  method SaveResults(cache: BigQuerySearchCache, w: nat, q: Job, results: Results, n: nat)
    returns (r: Result<Execution, ExecutionError>)
    requires Serves(cache, q) && cache.At(w, Ready(q.d, q.m, results, n))
    modifies cache
    ensures Serves(cache, q) && old(cache.run) <= cache.run
    ensures q.plan.Undisturbed() ==> r.Ok?
    ensures r.Ok? ==> Saved(old(cache.state).tables, cache.run, q, r.value)
    ensures r.Ok? ==> r.value.results == results && r.value.refreshed == n
    ensures cache.At(w, if r.Ok? then Answered(q.d, q.m, results, n, r.value.id, false) else Stopped)
  {
    var ok, id := cache.PersistSnapshot(w, q.d, q.m, results, n, q.now, q.plan);
    r := if ok then Ok(Execution(results, id, n, false)) else Err(PersistFailed);
  }

  /** Searches everything and saves the snapshot. */
  method SearchEverything(cache: BigQuerySearchCache, w: nat, q: Job) returns (r: Result<Execution, ExecutionError>)
    requires Serves(cache, q) && ValidJob(q) && cache.At(w, NoBase(q.d, q.m))
    modifies cache
    ensures Serves(cache, q) && old(cache.run) <= cache.run
    ensures AllGoesWell(q) && FitsReport(q) ==> r.Ok?
    ensures r.Ok? ==> Saved(old(cache.state).tables, cache.run, q, r.value) && r.value.refreshed == |q.m|
    ensures cache.At(w, if r.Ok? then Answered(q.d, q.m, r.value.results, |q.m|, r.value.id, false) else Stopped)
  {
    var found := SearchListed(cache, w, q);
    if found.Err? {
      return Err(SearchFailed(found.error));
    }
    RunsRemain(cache.env, old(cache.run), cache.run);
    r := SaveResults(cache, w, q, found.value, |q.m|);
  }

  /** A saved snapshot stays COMPLETE in every continuation. */
  lemma SavedForever(before: Tables, env: Env, run: seq<State>, q: Job, x: Execution)
    requires ValidEnv(env) && IsRun(env, run) && Saved(before, run, q, x)
    ensures CompleteForever(env, run, q.d, x.id)
  {
    CompleteForeverIff(env, run, q.d, x.id);
  }

  lemma ChangedUnique(previous: seq<Entry>, m: seq<Entry>)
    requires UniqueKeys(previous) && UniqueKeys(m)
    ensures UniqueKeys(DiffManifests(previous, m).changed)
    ensures forall e :: e in DiffManifests(previous, m).changed ==> e in m
  {
    var changed := DiffManifests(previous, m).changed;
    ChangedCharacterised(previous, m);
    DistinctDetermines(m, EntryKey);
    forall i, j | 0 <= i < j < |changed|
      ensures EntryKey(changed[i]) != EntryKey(changed[j])
    {
      assert changed[i] in m && changed[j] in m && changed[i] != changed[j];
    }
  }

  lemma {:induction false} DistinctCount<T>(xs: seq<T>)
    requires NoDuplicates(xs)
    ensures |set x | x in xs| == |xs|
  {
    if xs != [] {
      NoDuplicatesTail(xs);
      DistinctCount(xs[1..]);
      assert (set x | x in xs) == {xs[0]} + (set x | x in xs[1..]);
    }
  }

  /** The entries that a base does not already account for. */
  function NewEntries(m: seq<Entry>, base: seq<Entry>): set<Entry> { set e | e in m && e !in base }

  lemma ChangedCount(previous: seq<Entry>, m: seq<Entry>)
    requires UniqueKeys(previous) && UniqueKeys(m)
    ensures |DiffManifests(previous, m).changed| == |NewEntries(m, previous)|
  {
    var changed := DiffManifests(previous, m).changed;
    ChangedCharacterised(previous, m);
    DistinctCount(changed);
    assert (set e | e in changed) == NewEntries(m, previous);
  }

  /** Searches what changed since the base. */
  method SearchChanged(q: Job, live: Live, previous: seq<Entry>) returns (r: Result<Results, SearchError>)
    requires ValidJob(q) && UniqueKeys(previous)
    ensures var changed := DiffManifests(previous, q.m).changed;
      var found := CacheProtocol.RunSearch(EnvOf(q.world, q.limit), live, q.d, changed,
          ReadsSucceed(q.d, changed, q.readable));
      && (if r.Ok? then found == Some(r.value) else found == None)
      && |changed| == |NewEntries(q.m, previous)|
    ensures AllGoesWell(q) && FitsReport(q) ==> r.Ok?
  {
    var changed := DiffManifests(previous, q.m).changed;
    JobTerms(q);
    ChangedUnique(previous, q.m);
    ChangedCount(previous, q.m);
    r := RunSearch(q.world, live, q.readable, q.d, changed, q.maxWorkers, q.limit);
    if r.Err? && ReadsSucceed(q.d, changed, q.readable) {
      EnvIsValid(q.world, q.limit);
      FreshPinned(EnvOf(q.world, q.limit), live, q.d, q.m);
      RescanLimitAgrees(EnvOf(q.world, q.limit), live, q.d, previous, q.m);
    }
  }

  /** The rescan: searches what changed since the base, and merges. */
  method RescanChanged(cache: BigQuerySearchCache, w: nat, q: Job, previous: seq<Entry>, cached: Results)
    returns (r: Result<Results, SearchError>)
    requires Serves(cache, q) && ValidJob(q) && UniqueKeys(previous)
    requires cache.At(w, Rescanning(q.d, q.m, previous, cached))
    modifies cache
    ensures Serves(cache, q) && old(cache.run) <= cache.run
    ensures AllGoesWell(q) && FitsReport(q) ==> r.Ok?
    ensures cache.At(w, if r.Ok? then Ready(q.d, q.m, r.value, |NewEntries(q.m, previous)|) else Stopped)
  {
    cache.Others(w);
    var changes := DiffManifests(previous, q.m);
    r := SearchChanged(q, cache.state.live, previous);
    ghost var step := Rescan(ReadsSucceed(q.d, changes.changed, q.readable));
    if r.Ok? {
      r := Ok(MergeRefreshed(cached, r.value, changes.Affected()));
      cache.Move(w, step, Put(cache.state, w, Ready(q.d, q.m, r.value, |changes.changed|)));
    } else {
      cache.Move(w, step, Put(cache.state, w, Stopped));
    }
  }

  /** Searches what changed since the base, merges, and saves the snapshot. */
  method RefreshBase(cache: BigQuerySearchCache, w: nat, q: Job, previous: seq<Entry>, cached: Results)
    returns (r: Result<Execution, ExecutionError>)
    requires Serves(cache, q) && ValidJob(q) && UniqueKeys(previous)
    requires cache.At(w, Rescanning(q.d, q.m, previous, cached))
    modifies cache
    ensures Serves(cache, q) && old(cache.run) <= cache.run
    ensures AllGoesWell(q) && FitsReport(q) ==> r.Ok?
    ensures r.Ok? ==>
              && Saved(old(cache.state).tables, cache.run, q, r.value)
              && r.value.refreshed == |NewEntries(q.m, previous)|
    ensures cache.At(w, if r.Ok? then Answered(q.d, q.m, r.value.results, r.value.refreshed, r.value.id, false)
              else Stopped)
  {
    var merged := RescanChanged(cache, w, q, previous, cached);
    if merged.Err? {
      return Err(SearchFailed(merged.error));
    }
    var n := |NewEntries(q.m, previous)|;
    RunsRemain(cache.env, old(cache.run), cache.run);
    r := SaveResults(cache, w, q, merged.value, n);
  }

  lemma BaseListable(env: Env, run: seq<State>, w: nat, previous: seq<Entry>)
    requires ValidEnv(env) && IsRun(env, run) && w in run[|run| - 1].workers && run[|run| - 1].workers[w].Based?
    requires multiset(previous) == multiset(ManifestOf(run[|run| - 1].tables, run[|run| - 1].workers[w].base))
    ensures UniqueKeys(previous)
  {
    BasesAreWhole(env, run, |run| - 1, w);
    DistinctPermutation(ManifestOf(run[|run| - 1].tables, run[|run| - 1].workers[w].base), previous, EntryKey);
  }

  lemma NewEntriesPermutation(m: seq<Entry>, a: seq<Entry>, b: seq<Entry>)
    requires multiset(a) == multiset(b)
    ensures NewEntries(m, a) == NewEntries(m, b)
  {
    PermutationElements(a, b);
  }

  /** The rows of a base do not change while others go on. */
  lemma BaseFixed(env: Env, run: seq<State>, longer: seq<State>, w: nat)
    requires ValidEnv(env) && IsRun(env, run) && IsRun(env, longer) && run <= longer
    requires w in run[|run| - 1].workers && run[|run| - 1].workers[w].Based?
    ensures var base := run[|run| - 1].workers[w].base;
      ManifestOf(longer[|longer| - 1].tables, base) == ManifestOf(run[|run| - 1].tables, base)
  {
    RunKeeps(env, run, |run| - 1);
    assert WorkerOk(env, run[|run| - 1], run[|run| - 1].workers[w]);
    RunExtends(env, longer, |run| - 1, |longer| - 1);
  }

  /** Loads the manifest of a base. */
  method LoadBaseManifest(cache: BigQuerySearchCache, w: nat, q: Job, base: CacheId) returns (previous: seq<Entry>)
    requires Serves(cache, q) && cache.At(w, Based(q.d, q.m, base))
    modifies cache
    ensures Serves(cache, q) && old(cache.run) <= cache.run && UniqueKeys(previous)
    ensures multiset(previous) == multiset(ManifestOf(old(cache.state).tables, base))
    ensures cache.At(w, Compared(q.d, q.m, base, previous))
  {
    cache.Others(w);
    BaseFixed(cache.env, old(cache.run), cache.run, w);
    previous := cache.LoadManifest(base);
    BaseListable(cache.env, cache.run, w, previous);
    cache.Move(w, LoadManifest(previous), Put(cache.state, w, Compared(q.d, q.m, base, previous)));
  }

  /** Loads a base and compares its manifest with the listing. */
  method LoadBase(cache: BigQuerySearchCache, w: nat, q: Job, base: CacheId)
    returns (previous: seq<Entry>, cached: Results, same: bool)
    requires Serves(cache, q) && ValidJob(q) && cache.At(w, Based(q.d, q.m, base))
    modifies cache
    ensures Serves(cache, q) && old(cache.run) <= cache.run && UniqueKeys(previous)
    ensures same <==> multiset(ManifestOf(old(cache.state).tables, base)) == multiset(q.m)
    ensures NewEntries(q.m, previous) == NewEntries(q.m, ManifestOf(old(cache.state).tables, base))
    ensures cache.At(w, if same then Answered(q.d, q.m, cached, 0, base, true)
              else Rescanning(q.d, q.m, previous, cached))
  {
    previous := LoadBaseManifest(cache, w, q, base);
    DiffEmpty(previous, q.m);
    NewEntriesPermutation(q.m, previous, ManifestOf(old(cache.state).tables, base));
    cache.Others(w);
    cached := cache.LoadResults(base, q.d);
    same := DiffManifests(previous, q.m).IsEmpty();
    cache.Move(w, LoadResults(cached), Put(cache.state, w,
      if same then Answered(q.d, q.m, cached, 0, base, true) else Rescanning(q.d, q.m, previous, cached)));
  }

  /** The base is reused when it lists the same objects; otherwise a new snapshot was saved after searching the rest. */
  ghost predicate FromBase(looked: Tables, base: CacheId, run: seq<State>, q: Job, x: Execution) {
    var before := ManifestOf(looked, base);
    if multiset(before) == multiset(q.m) then x.reused && x.id == base && x.refreshed == 0
    else Saved(looked, run, q, x) && x.refreshed == |NewEntries(q.m, before)|
  }

  /** The base has fallen behind: the refresh, seen from the moment at which the base was looked up. */
  method ReplaceBase(cache: BigQuerySearchCache, w: nat, q: Job, ghost looked: Tables, ghost base: CacheId,
                     previous: seq<Entry>, cached: Results)
    returns (r: Result<Execution, ExecutionError>)
    requires Serves(cache, q) && ValidJob(q) && UniqueKeys(previous)
    requires cache.At(w, Rescanning(q.d, q.m, previous, cached))
    requires looked.runs.Keys <= cache.state.tables.runs.Keys && multiset(ManifestOf(looked, base)) != multiset(q.m)
    requires NewEntries(q.m, previous) == NewEntries(q.m, ManifestOf(looked, base))
    modifies cache
    ensures Serves(cache, q) && old(cache.run) <= cache.run
    ensures AllGoesWell(q) && FitsReport(q) ==> r.Ok?
    ensures r.Ok? ==> FromBase(looked, base, cache.run, q, r.value)
    ensures cache.At(w, if r.Ok?
              then Answered(q.d, q.m, r.value.results, r.value.refreshed, r.value.id, r.value.reused) else Stopped)
  {
    ghost var loaded := cache.state.tables;
    r := RefreshBase(cache, w, q, previous, cached);
    if r.Ok? {
      Refreshed(looked, loaded, base, cache.run, q, r.value);
    }
  }

  /** Reuses the base when the listing has not changed since, and refreshes it otherwise. */
  method UseBase(cache: BigQuerySearchCache, w: nat, q: Job, base: CacheId)
    returns (r: Result<Execution, ExecutionError>)
    requires Serves(cache, q) && ValidJob(q) && cache.At(w, Based(q.d, q.m, base))
    modifies cache
    ensures Serves(cache, q) && old(cache.run) <= cache.run
    ensures AllGoesWell(q) && FitsReport(q) ==> r.Ok?
    ensures multiset(ManifestOf(old(cache.state).tables, base)) == multiset(q.m) ==> r.Ok?
    ensures r.Ok? ==> FromBase(old(cache.state).tables, base, cache.run, q, r.value)
    ensures cache.At(w, if r.Ok?
              then Answered(q.d, q.m, r.value.results, r.value.refreshed, r.value.id, r.value.reused) else Stopped)
  {
    ghost var looked, before := cache.state.tables, cache.run;
    var previous, cached, same := LoadBase(cache, w, q, base);
    if same {
      r := Ok(Execution(cached, base, 0, true));
    } else {
      RunsRemain(cache.env, before, cache.run);
      r := ReplaceBase(cache, w, q, looked, base, previous, cached);
    }
  }

  lemma Refreshed(looked: Tables, loaded: Tables, base: CacheId, run: seq<State>, q: Job, x: Execution)
    requires looked.runs.Keys <= loaded.runs.Keys && Saved(loaded, run, q, x)
    requires multiset(ManifestOf(looked, base)) != multiset(q.m) &&
              x.refreshed == |NewEntries(q.m, ManifestOf(looked, base))|
    ensures FromBase(looked, base, run, q, x)
  {}

  /**
   * Where an answer came from, given the tables when the base was looked up: from a latest complete snapshot, or
   * from searching everything when there was none.
   */
  ghost predicate Accounted(looked: Tables, run: seq<State>, q: Job, x: Execution) {
    || (exists base :: IsLatest(looked, q.d, base) && FromBase(looked, base, run, q, x))
    || ((forall id :: !IsComplete(looked, q.d, id)) && Saved(looked, run, q, x) && x.refreshed == |q.m|)
  }

  /** Lists, and looks for a base. */
  method FindBase(cache: BigQuerySearchCache, w: nat, q: Job) returns (latest: Option<CacheId>)
    requires Serves(cache, q) && ValidJob(q) && w !in cache.state.workers
    modifies cache
    ensures Serves(cache, q) && old(cache.run) <= cache.run && |old(cache.run)| < |cache.run|
    ensures cache.At(w, if latest.None? then NoBase(q.d, q.m) else Based(q.d, q.m, latest.value))
    ensures latest.None? ==> forall id :: !IsComplete(cache.state.tables, q.d, id)
    ensures latest.Some? ==> IsLatest(cache.state.tables, q.d, latest.value)
  {
    JobTerms(q);
    cache.Others(w);
    cache.Move(w, Begin(q.d, q.m), Put(cache.state, w, Listed(q.d, q.m)));
    cache.Others(w);
    latest := cache.LatestCompletedRun(q.d);
    cache.Move(w, Lookup(latest),
               Put(cache.state, w, if latest.None? then NoBase(q.d, q.m) else Based(q.d, q.m, latest.value)));
  }

  /** The run has been in a state with these tables since it was `before` long. */
  ghost predicate PassedThrough(run: seq<State>, before: nat, tables: Tables) {
    exists k :: before <= k < |run| && run[k].tables == tables
  }

  /** The two branches of the decision. */
  method AnswerFrom(cache: BigQuerySearchCache, w: nat, q: Job, latest: Option<CacheId>)
    returns (r: Result<Execution, ExecutionError>)
    requires Serves(cache, q) && ValidJob(q)
    requires cache.At(w, if latest.None? then NoBase(q.d, q.m) else Based(q.d, q.m, latest.value))
    requires latest.None? ==> forall id :: !IsComplete(cache.state.tables, q.d, id)
    requires latest.Some? ==> IsLatest(cache.state.tables, q.d, latest.value)
    modifies cache
    ensures Serves(cache, q) && old(cache.run) <= cache.run
    ensures AllGoesWell(q) && FitsReport(q) ==> r.Ok?
    ensures r.Ok? ==> Accounted(old(cache.state).tables, cache.run, q, r.value)
    ensures cache.At(w, if r.Ok?
              then Answered(q.d, q.m, r.value.results, r.value.refreshed, r.value.id, r.value.reused) else Stopped)
  {
    if latest.None? {
      r := SearchEverything(cache, w, q);
    } else {
      r := UseBase(cache, w, q, latest.value);
    }
  }

  /** The cache decision of `execute`, up to the results. */
  method Answer(cache: BigQuerySearchCache, w: nat, q: Job)
    returns (r: Result<Execution, ExecutionError>, ghost looked: Tables)
    requires Serves(cache, q) && ValidJob(q) && w !in cache.state.workers
    modifies cache
    ensures Serves(cache, q) && old(cache.run) <= cache.run
    ensures PassedThrough(cache.run, |old(cache.run)|, looked)
    ensures AllGoesWell(q) && FitsReport(q) ==> r.Ok?
    ensures r.Ok? ==> Accounted(looked, cache.run, q, r.value)
    ensures cache.At(w, if r.Ok?
              then Answered(q.d, q.m, r.value.results, r.value.refreshed, r.value.id, r.value.reused) else Stopped)
  {
    var latest := FindBase(cache, w, q);
    looked := cache.state.tables;
    ghost var sofar := cache.run;
    r := AnswerFrom(cache, w, q, latest);
    PassedLast(sofar, cache.run, |old(cache.run)|);
  }

  lemma PassedLast(run: seq<State>, longer: seq<State>, before: nat)
    requires before < |run| && run <= longer
    ensures PassedThrough(longer, before, run[|run| - 1].tables)
  {
    assert longer[|run| - 1] == run[|run| - 1];
  }

  /** `results` are the rows of a search of the listed manifest, up to normalisation and order. */
  ghost predicate Delivers(q: Job, results: Results) {
    results.Keys == FullResults(q).Keys && forall t :: t in FullResults(q) ==> SameRows(results[t], FullResults(q)[t])
  }

  lemma AnswerDelivers(q: Job, run: seq<State>, w: nat)
    requires IsRun(EnvOf(q.world, q.limit), run)
    requires var s := run[|run| - 1];
      w in s.workers && s.workers[w].Answered? && s.workers[w].d == q.d && s.workers[w].m == q.m
    ensures var results := run[|run| - 1].workers[w].results;
      Delivers(q, results) && (TotalRows(Values(q.d), results) <= q.limit <==> FitsReport(q))
  {
    var env := EnvOf(q.world, q.limit);
    EnvIsValid(q.world, q.limit);
    RunKeeps(env, run, |run| - 1);
    assert WorkerOk(env, run[|run| - 1], run[|run| - 1].workers[w]);
    CorrectIsFresh(env, map[], q.d, q.m, run[|run| - 1].workers[w].results);
    SameTotal(q.d, run[|run| - 1].workers[w].results, FullResults(q));
  }

  /** The snapshot behind a success, as it stands at the end. */
  ghost predicate Backed(env: Env, tables: Tables, q: Job, id: CacheId) {
    GoodSnapshot(env, tables, id) && multiset(ManifestOf(tables, id)) == multiset(q.m)
  }

  lemma FinishedSnapshot(q: Job, run: seq<State>, w: nat)
    requires IsRun(EnvOf(q.world, q.limit), run)
    requires var s := run[|run| - 1]; w in s.workers && s.workers[w].Finished? && s.workers[w].m == q.m
    ensures Backed(EnvOf(q.world, q.limit), run[|run| - 1].tables, q, run[|run| - 1].workers[w].id)
  {
    var env := EnvOf(q.world, q.limit);
    EnvIsValid(q.world, q.limit);
    RunKeeps(env, run, |run| - 1);
    assert WorkerOk(env, run[|run| - 1], run[|run| - 1].workers[w]);
  }

  /** The row limit and the access record. */
  method Conclude(cache: BigQuerySearchCache, w: nat, q: Job, x: Execution, access: Outcome)
    returns (r: Result<Execution, ExecutionError>)
    requires Serves(cache, q) && cache.At(w, Answered(q.d, q.m, x.results, x.refreshed, x.id, x.reused))
    modifies cache
    ensures Serves(cache, q) && old(cache.run) <= cache.run
    ensures Delivers(q, x.results)
    ensures r.Ok? ==> FitsReport(q) && r.value == x && cache.At(w, Finished(q.d, q.m, x.results, x.id))
    ensures r.Ok? ==> AccessRow(q.d, x.id, x.reused, x.refreshed) in cache.state.tables.access
    ensures r.Ok? ==> Backed(cache.env, cache.state.tables, q, x.id)
    ensures r.Err? ==> !FitsReport(q) || access != Returns
  {
    cache.Others(w);
    AnswerDelivers(q, cache.run, w);
    if TotalRows(Values(q.d), x.results) > q.limit {
      cache.Move(w, Finish(access), Put(cache.state, w, Stopped));
      return Err(ReportTooLarge);
    }
    cache.RecordAccess(w, cache.state.workers[w], access);
    if access != Returns {
      return Err(AccessFailed);
    }
    FinishedSnapshot(q, cache.run, w);
    r := Ok(x);
  }

  /**
   * `execute` up to the access record, while others go on. Whatever the cache held and whatever they do, it returns
   * the rows of a search of the listed manifest; when nothing disturbs it, it succeeds exactly when those rows fit
   * the report. A success has a whole snapshot that lists the same objects, and an access record.
   */
  method Execute(cache: BigQuerySearchCache, w: nat, q: Job, access: Outcome)
    returns (r: Result<Execution, ExecutionError>, ghost answered: seq<State>, ghost looked: Tables)
    requires Serves(cache, q) && ValidJob(q) && w !in cache.state.workers
    modifies cache
    ensures Serves(cache, q) && old(cache.run) <= answered <= cache.run
    ensures AllGoesWell(q) && access == Returns ==> (r.Ok? <==> FitsReport(q))
    ensures r.Ok? ==> FitsReport(q) && Delivers(q, r.value.results)
    ensures r.Ok? ==> cache.At(w, Finished(q.d, q.m, r.value.results, r.value.id))
    ensures r.Ok? ==> Backed(cache.env, cache.state.tables, q, r.value.id)
    ensures r.Ok? ==> AccessRow(q.d, r.value.id, r.value.reused, r.value.refreshed) in cache.state.tables.access
    ensures r.Ok? ==> Accounted(looked, answered, q, r.value)
    ensures PassedThrough(answered, |old(cache.run)|, looked)
  {
    r, looked := Answer(cache, w, q);
    answered := cache.run;
    if r.Ok? {
      r := Conclude(cache, w, q, r.value, access);
    }
  }
}
