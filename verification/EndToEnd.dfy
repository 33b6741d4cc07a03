/**
 * What a job finally delivers, whatever the cache did: the report, the copied objects and the counters are those
 * of a fresh search of the listed objects.
 */
module EndToEnd {
  import opened CacheProtocol
  import opened CacheSafety
  import opened CacheTables
  import opened ContentSearch
  import opened Copying
  import opened Executor
  import opened FilenameSearch
  import CacheExamples
  import LineScan
  import opened Model
  import opened Ordering
  import opened Policy
  import opened Refresh
  import opened Report
  import opened SearchSpec
  import opened Sequences
  import opened Wrappers
  import Text

  /** Worker `w` has an answer in state `i` of a run. */
  ghost predicate HasAnswer(env: Env, run: seq<State>, i: nat, w: nat) {
    && ValidEnv(env) && IsRun(env, run) && i < |run| && w in run[i].workers
    && (run[i].workers[w].Answered? || run[i].workers[w].Finished?)
  }

  /** The results `a` are those of a search of `m`, up to normalisation and order. */
  ghost predicate Agrees(env: Env, live: Live, d: Definition, m: seq<Entry>, a: Results) {
    && Listable(m) && a.Keys == (set t | t in Values(d))
    && forall t :: t in Values(d) ==> SameRows(a[t], RowsFor(m, t, MatcherAt(env, live, d)))
  }

  lemma AnswerAgrees(env: Env, run: seq<State>, i: nat, w: nat)
    requires HasAnswer(env, run, i, w)
    ensures var x := run[i].workers[w]; Agrees(env, run[i].live, x.d, x.m, x.results)
  {
    RunKeeps(env, run, i);
    var x := run[i].workers[w];
    assert WorkerOk(env, run[i], x);
    forall t | t in Values(x.d)
      ensures SameRows(x.results[t], RowsFor(x.m, t, MatcherAt(env, run[i].live, x.d)))
    {
      PinnedRows(env, run[i].live, x.d, x.m, t);
    }
  }

  // ---------- rows and the entries they come from ----------

  lemma {:induction false} NormalRowsAt(rows: seq<Row>)
    ensures |NormalRows(rows)| == |rows|
    ensures forall i :: 0 <= i < |rows| ==> NormalRows(rows)[i] == Normal(rows[i])
  {
    if rows != [] {
      NormalRowsAt(rows[1..]);
    }
  }

  lemma SameRowsIn(a: seq<Row>, b: seq<Row>, r: Row)
    requires SameRows(a, b) && r in a
    ensures exists s :: s in b && Normal(s) == Normal(r)
  {
    MapFilterIn(a, NormalRow, Normal(r));
    assert NormalRow(r) == Some(Normal(r));
    PermutationElements(NormalRows(a), NormalRows(b));
    MapFilterIn(b, NormalRow, Normal(r));
    var s :| s in b && NormalRow(s) == Some(Normal(r));
  }

  lemma DistinctNormal(rows: seq<Row>)
    ensures DistinctOn(rows, RowKey) <==> DistinctOn(NormalRows(rows), RowKey)
  {
    NormalRowsAt(rows);
    assert forall i :: 0 <= i < |rows| ==> RowKey(NormalRows(rows)[i]) == RowKey(rows[i]);
  }

  lemma SameRowsDistinct(a: seq<Row>, b: seq<Row>)
    requires SameRows(a, b) && DistinctOn(b, RowKey)
    ensures DistinctOn(a, RowKey)
  {
    DistinctNormal(a);
    DistinctNormal(b);
    DistinctPermutation(NormalRows(b), NormalRows(a), RowKey);
  }

  /** `r` is, up to normalisation, the row that `e` contributes to `t`. */
  ghost predicate ComesFrom(env: Env, live: Live, d: Definition, t: string, e: Entry, r: Row) {
    env.contributes(live, d, e, t).Some? && Normal(env.contributes(live, d, e, t).value) == Normal(r)
  }

  lemma RowHasEntry(env: Env, live: Live, d: Definition, m: seq<Entry>, a: Results, t: string, r: Row)
    requires ValidEnv(env) && Agrees(env, live, d, m, a) && t in Values(d) && r in a[t]
    ensures exists e :: e in m && ComesFrom(env, live, d, t, e, r) && e.Key() == r.Key()
  {
    var f := MatcherAt(env, live, d);
    SameRowsIn(a[t], RowsFor(m, t, f), r);
    var s :| s in RowsFor(m, t, f) && Normal(s) == Normal(r);
    RowsForIn(m, t, f, s);
    var e :| e in m && f(e, t) == Some(s);
    assert s.Key() == e.Key() && Normal(s).Key() == Normal(r).Key();
    assert ComesFrom(env, live, d, t, e, r);
  }

  lemma EntryHasRow(env: Env, live: Live, d: Definition, m: seq<Entry>, a: Results, t: string, e: Entry)
    requires ValidEnv(env) && Agrees(env, live, d, m, a) && t in Values(d) && e in m &&
              env.contributes(live, d, e, t).Some?
    ensures exists r :: r in a[t] && r.Key() == e.Key()
  {
    var f := MatcherAt(env, live, d);
    var s := env.contributes(live, d, e, t).value;
    assert f(e, t) == Some(s);
    RowsForIn(m, t, f, s);
    SameRowsIn(RowsFor(m, t, f), a[t], s);
    var r :| r in a[t] && Normal(r) == Normal(s);
    assert Normal(r).Key() == Normal(s).Key();
  }

  lemma SameKeySameEntry(m: seq<Entry>, a: Entry, b: Entry)
    requires UniqueKeys(m) && a in m && b in m && a.Key() == b.Key()
    ensures a == b
  {
    DistinctDetermines(m, EntryKey);
  }

  /** The row of an object is the one its own entry contributes. */
  lemma RowComesFromEntry(env: Env, live: Live, d: Definition, m: seq<Entry>, a: Results, t: string, e: Entry, r: Row)
    requires ValidEnv(env) && Agrees(env, live, d, m, a) && t in Values(d) && r in a[t] && e in m && e.Key() == r.Key()
    ensures ComesFrom(env, live, d, t, e, r)
  {
    RowHasEntry(env, live, d, m, a, t, r);
    var e' :| e' in m && ComesFrom(env, live, d, t, e', r) && e'.Key() == r.Key();
    SameKeySameEntry(m, e, e');
  }

  ghost predicate HasRow(a: Results, t: string, k: ObjectKey) { t in a && exists r :: r in a[t] && r.Key() == k }

  /** A listed object has a row for a term exactly when it contributes one. */
  lemma RowIffContributes(env: Env, run: seq<State>, i: nat, w: nat, t: string, e: Entry)
    requires HasAnswer(env, run, i, w) && t in Values(run[i].workers[w].d) && e in run[i].workers[w].m
    ensures var x := run[i].workers[w];
      HasRow(x.results, t, e.Key()) <==> env.contributes(run[i].live, x.d, e, t).Some?
  {
    var x := run[i].workers[w];
    AnswerAgrees(env, run, i, w);
    if HasRow(x.results, t, e.Key()) {
      var r :| r in x.results[t] && r.Key() == e.Key();
      RowComesFromEntry(env, run[i].live, x.d, x.m, x.results, t, e, r);
    }
    if env.contributes(run[i].live, x.d, e, t).Some? {
      EntryHasRow(env, run[i].live, x.d, x.m, x.results, t, e);
    }
  }

  // ---------- what the rows say ----------

  /** The lines of the generation of an object that was listed. */
  function TextOf(world: World, e: Entry): seq<string> { world.history(e.Key(), e.generation) }

  /** The term that a value of the request stands for. */
  function TermIn(run: seq<State>, i: nat, w: nat, t: string): SearchTerm
    requires i < |run| && w in run[i].workers && (run[i].workers[w].Answered? || run[i].workers[w].Finished?)
  {
    TermOf(run[i].workers[w].d.terms, t)
  }

  /**
   * After any history of concurrent, failing and crashing runs, an answered content search reports a listed
   * object for a term of either mode exactly when a searched line of its listed generation has a match.
   */
  lemma ContentRowIffMatches(world: World, limit: nat, run: seq<State>, i: nat, w: nat, t: string, e: Entry)
    requires HasAnswer(EnvOf(world, limit), run, i, w) && run[i].workers[w].d.searchType == Content
    requires t in Values(run[i].workers[w].d) && e in run[i].workers[w].m
    ensures HasRow(run[i].workers[w].results, t, e.Key()) <==>
            exists n :: IsSearched(world.lang, TextOf(world, e), n) &&
                        LineScan.LineHit(world.lang.alphabet, TextOf(world, e)[n - 1], TermIn(run, i, w, t)).Reported()
  {
    var env, d := EnvOf(world, limit), run[i].workers[w].d;
    RowIffContributes(env, run, i, w, t, e);
    ListedGeneration(env, run, i, w, e);
    assert env.contributes(run[i].live, d, e, t) ==
        ContentMatch(world.lang, world.history, run[i].live, e, TermOf(d.terms, t));
    MatchTextIffReported(world.lang, TextOf(world, e), TermOf(d.terms, t));
  }

  /** For a literal: exactly when a searched line of the listed generation contains it. */
  lemma ContentRowIffOccurs(world: World, limit: nat, run: seq<State>, i: nat, w: nat, t: string, e: Entry)
    requires HasAnswer(EnvOf(world, limit), run, i, w) && run[i].workers[w].d.searchType == Content
    requires t in Values(run[i].workers[w].d) && t != [] && e in run[i].workers[w].m
    requires TermIn(run, i, w, t) == SearchTerm(t, Literal)
    ensures HasRow(run[i].workers[w].results, t, e.Key()) <==>
            exists n :: IsSearched(world.lang, TextOf(world, e), n) &&
                        LineScan.Occurs(world.lang.alphabet, TextOf(world, e)[n - 1], t)
  {
    ContentRowIffMatches(world, limit, run, i, w, t, e);
    MatchTextIffReported(world.lang, TextOf(world, e), SearchTerm(t, Literal));
    MatchTextIffOccurs(world.lang, TextOf(world, e), t);
  }

  lemma ListedGeneration(env: Env, run: seq<State>, i: nat, w: nat, e: Entry)
    requires HasAnswer(env, run, i, w) && e in run[i].workers[w].m
    ensures e.generation > 0
  {
    AnswerAgrees(env, run, i, w);
  }

  /**
   * An answered filename search reports an object for a term exactly when its base name contains the term ignoring
   * case.
   */
  lemma FilenameRowIffContains(world: World, limit: nat, run: seq<State>, i: nat, w: nat, t: string, e: Entry,
                               name: string)
    requires HasAnswer(EnvOf(world, limit), run, i, w) && run[i].workers[w].d.searchType == Filename
    requires t in Values(run[i].workers[w].d) && e in run[i].workers[w].m && Text.IsBasename(e.path, name)
    ensures HasRow(run[i].workers[w].results, t, e.Key()) <==>
            Text.Contains(Text.Fold(name, world.casefold), Text.Fold(t, world.casefold))
  {
    var env := EnvOf(world, limit);
    var term := Text.Fold(t, world.casefold);
    Text.BasenameIff(e.path, name);
    RowIffContributes(env, run, i, w, t, e);
    assert env.contributes(run[i].live, run[i].workers[w].d, e, t) == FilenameMatch(world.casefold, e, t);
    if Text.Fold(name, world.casefold) == term {
      assert Text.OccursAt(term, term, 0);
    }
  }

  /** A row of an answered filename search says exact iff the names are equal ignoring case, and repeats the listing. */
  lemma FilenameRowFields(world: World, limit: nat, run: seq<State>, i: nat, w: nat, t: string, e: Entry, r: Row,
                          name: string)
    requires HasAnswer(EnvOf(world, limit), run, i, w) && run[i].workers[w].d.searchType == Filename
    requires t in Values(run[i].workers[w].d) && e in run[i].workers[w].m
    requires t in run[i].workers[w].results && r in run[i].workers[w].results[t] && r.Key() == e.Key()
    requires Text.IsBasename(e.path, name)
    ensures MakeFilenameRow()(t, r).fileName == name
    ensures Get(r.matchType, "") ==
            if Text.Fold(name, world.casefold) == Text.Fold(t, world.casefold) then "exact" else "partial"
    ensures r.generation == e.generation && r.contentHash == e.contentHash
    ensures Get(r.created, "") == e.created && Get(r.updated, "") == e.updated && Get(r.size, 0) == e.size
  {
    var f := FilenameRowOrigin(world, limit, run, i, w, t, e, r);
    SameFields(f, r);
    FilenameMatchFields(world.casefold, e, t);
    Text.BasenameIff(e.path, name);
    ShownName(f, r, t, name);
  }

  /** The report shows the base name, whether the row kept it or not. */
  lemma ShownName(f: Row, r: Row, t: string, name: string)
    requires Normal(f) == Normal(r) && f.fileName == Some(name) && name == Text.Basename(f.path)
    ensures MakeFilenameRow()(t, r).fileName == name
  {
    assert Normal(f).fileName == Some(name);
    assert Normal(r).path == r.path && Normal(f).path == f.path;
  }

  lemma FilenameRowOrigin(world: World, limit: nat, run: seq<State>, i: nat, w: nat, t: string, e: Entry, r: Row)
    returns (f: Row)
    requires HasAnswer(EnvOf(world, limit), run, i, w) && run[i].workers[w].d.searchType == Filename
    requires t in Values(run[i].workers[w].d) && e in run[i].workers[w].m
    requires t in run[i].workers[w].results && r in run[i].workers[w].results[t] && r.Key() == e.Key()
    ensures FilenameMatch(world.casefold, e, t) == Some(f) && Normal(f) == Normal(r)
  {
    var env, x := EnvOf(world, limit), run[i].workers[w];
    AnswerAgrees(env, run, i, w);
    RowComesFromEntry(env, run[i].live, x.d, x.m, x.results, t, e, r);
    assert env.contributes(run[i].live, x.d, e, t) == FilenameMatch(world.casefold, e, t);
    f := FilenameMatch(world.casefold, e, t).value;
  }

  lemma FilenameMatchFields(casefold: char -> char, e: Entry, t: string)
    requires FilenameMatch(casefold, e, t).Some?
    ensures var f := FilenameMatch(casefold, e, t).value;
      && f.generation == e.generation && f.contentHash == e.contentHash
      && f.path == e.path && f.fileName == Some(Text.Basename(e.path))
      && f.created == Some(e.created) && f.updated == Some(e.updated) && f.size == Some(e.size)
      && f.matchType == Some(if Text.Fold(Text.Basename(e.path), casefold) == Text.Fold(t, casefold) then "exact"
          else "partial")
  {}

  lemma SameFields(a: Row, b: Row)
    requires Normal(a) == Normal(b)
    ensures a.generation == b.generation && a.contentHash == b.contentHash
    ensures Get(a.matchType, "") == Get(b.matchType, "") && Get(a.size, 0) == Get(b.size, 0)
    ensures Get(a.created, "") == Get(b.created, "") && Get(a.updated, "") == Get(b.updated, "")
  {
    assert Normal(a).matchType == Some(Get(a.matchType, "")) && Normal(b).matchType == Some(Get(b.matchType, ""));
    assert Normal(a).created == Some(Get(a.created, "")) && Normal(b).created == Some(Get(b.created, ""));
    assert Normal(a).updated == Some(Get(a.updated, "")) && Normal(b).updated == Some(Get(b.updated, ""));
    assert Normal(a).size == Some(Get(a.size, 0)) && Normal(b).size == Some(Get(b.size, 0));
    assert Normal(a).contentHash == a.contentHash && Normal(b).contentHash == b.contentHash;
  }

  /** The line numbers and tokens of an answered content search are those of the listed generation, for either mode. */
  lemma ContentRowLines(world: World, limit: nat, run: seq<State>, i: nat, w: nat, t: string, e: Entry, r: Row)
    requires HasAnswer(EnvOf(world, limit), run, i, w) && run[i].workers[w].d.searchType == Content
    requires t in Values(run[i].workers[w].d) && e in run[i].workers[w].m
    requires t in run[i].workers[w].results && r in run[i].workers[w].results[t] && r.Key() == e.Key()
    ensures MatchText(world.lang, TextOf(world, e), TermIn(run, i, w, t)) ==
            Some(TermMatch(r.exactLines, r.partialLines, r.partialTokens))
    ensures r.generation == e.generation && r.contentHash == e.contentHash
  {
    var f := ContentRowOrigin(world, limit, run, i, w, t, e, r);
    ListedGeneration(EnvOf(world, limit), run, i, w, e);
    SameLines(f, r);
    SameFields(f, r);
  }

  lemma ContentRowOrigin(world: World, limit: nat, run: seq<State>, i: nat, w: nat, t: string, e: Entry, r: Row)
    returns (f: Row)
    requires HasAnswer(EnvOf(world, limit), run, i, w) && run[i].workers[w].d.searchType == Content
    requires t in Values(run[i].workers[w].d) && e in run[i].workers[w].m
    requires t in run[i].workers[w].results && r in run[i].workers[w].results[t] && r.Key() == e.Key()
    ensures ContentMatch(world.lang, world.history, run[i].live, e, TermIn(run, i, w, t)) == Some(f) &&
              Normal(f) == Normal(r)
  {
    var env, x := EnvOf(world, limit), run[i].workers[w];
    AnswerAgrees(env, run, i, w);
    RowComesFromEntry(env, run[i].live, x.d, x.m, x.results, t, e, r);
    f := env.contributes(run[i].live, x.d, e, t).value;
    assert env.contributes(run[i].live, x.d, e, t) ==
           ContentMatch(world.lang, world.history, run[i].live, e, TermOf(x.d.terms, t));
  }

  /**
   * For an identifier literal: exact on the searched lines with a run equal to it, partial on those with a longer
   * run.
   */
  lemma IdentifierRowLines(world: World, limit: nat, run: seq<State>, i: nat, w: nat, t: string, e: Entry, r: Row)
    requires HasAnswer(EnvOf(world, limit), run, i, w) && run[i].workers[w].d.searchType == Content
    requires LineScan.ValidAlphabet(world.lang.alphabet) && t != [] && LineScan.IdentifierOnly(world.lang.alphabet, t)
    requires t in Values(run[i].workers[w].d) && e in run[i].workers[w].m
    requires TermIn(run, i, w, t) == SearchTerm(t, Literal)
    requires t in run[i].workers[w].results && r in run[i].workers[w].results[t] && r.Key() == e.Key()
    ensures var a, text := world.lang.alphabet, TextOf(world, e);
      && (forall n :: n in r.exactLines <==> IsSearched(world.lang, text, n) && HasExactRun(a, text[n - 1], t))
      && (forall n :: n in r.partialLines <==> IsSearched(world.lang, text, n) && HasLongerRun(a, text[n - 1], t))
      && (forall token :: token in r.partialTokens <==>
            exists n :: IsSearched(world.lang, text, n) && IsLongerToken(a, text[n - 1], t, token))
  {
    ContentRowLines(world, limit, run, i, w, t, e, r);
    IdentifierTermText(world.lang, TextOf(world, e), t);
  }

  lemma SameLines(a: Row, b: Row)
    requires Normal(a) == Normal(b)
    ensures a.generation == b.generation && a.exactLines == b.exactLines
    ensures a.partialLines == b.partialLines && a.partialTokens == b.partialTokens
  {
    assert Normal(a).exactLines == a.exactLines && Normal(b).exactLines == b.exactLines;
    assert Normal(a).partialTokens == a.partialTokens && Normal(b).partialTokens == b.partialTokens;
  }

  // ---------- the report ----------

  /**
   * The report of an answered run is the report of a fresh search of the listed manifest, row for row: it does
   * not matter whether the answer was searched for, refreshed, or loaded in whatever order.
   */
  lemma ReportIsFresh<R>(env: Env, run: seq<State>, i: nat, w: nat, make: (string, Row) -> R, order: R -> RowOrder,
                         lower: char -> char)
    requires HasAnswer(env, run, i, w) && ValidMaker(make, order, lower)
    requires DistinctIgnoringCase(Values(run[i].workers[w].d), lower)
    ensures var x := run[i].workers[w];
      ReportRows(Values(x.d), x.results, make, order) ==
      ReportRows(Values(x.d), Fresh(env, run[i].live, x.d, x.m), make, order)
  {
    var x := run[i].workers[w];
    AnswerAgrees(env, run, i, w);
    AnswersAgree(env, run, i, w);
    forall t | t in Values(x.d)
      ensures DistinctOn(x.results[t], RowKey)
    {
      RowsForDistinct(x.m, t, MatcherAt(env, run[i].live, x.d));
      SameRowsDistinct(x.results[t], RowsFor(x.m, t, MatcherAt(env, run[i].live, x.d)));
    }
    ReportCanonical(Values(x.d), x.results, Fresh(env, run[i].live, x.d, x.m), make, order, lower);
  }

  // ---------- the copied objects and the counters ----------

  lemma {:induction false} RowsOfIn(terms: seq<string>, results: Results, r: Row)
    ensures r in RowsOf(terms, results) <==> exists t :: t in terms && t in results && r in results[t]
  {
    if terms != [] {
      var last := terms[|terms| - 1];
      assert terms == terms[..|terms| - 1] + [last];
      RowsOfIn(terms[..|terms| - 1], results, r);
    }
  }

  /** The generation under which an object is listed. */
  function GenerationIn(m: seq<Entry>): ObjectKey -> nat {
    (k: ObjectKey) => if k in ByKey(m) then ByKey(m)[k].generation else 0
  }

  lemma RowGeneration(env: Env, live: Live, d: Definition, m: seq<Entry>, a: Results, t: string, r: Row)
    requires ValidEnv(env) && Stamped(env) && Agrees(env, live, d, m, a) && t in Values(d) && r in a[t]
    ensures r.generation == GenerationIn(m)(r.Key())
  {
    RowHasEntry(env, live, d, m, a, t, r);
    var e :| e in m && ComesFrom(env, live, d, t, e, r) && e.Key() == r.Key();
    SameLines(env.contributes(live, d, e, t).value, r);
    ByKeyProperties(m);
    assert Refresh.Holds(ByKey(m), e);
  }

  /** The entries that match at least one term. */
  ghost function Matching(env: Env, live: Live, d: Definition, m: seq<Entry>): set<Entry> {
    set e | e in m && MatchesSome(env, live, d, e)
  }

  ghost predicate MatchesSome(env: Env, live: Live, d: Definition, e: Entry) {
    exists t :: t in Values(d) && env.contributes(live, d, e, t).Some?
  }

  lemma ObjectsAreMatching(env: Env, live: Live, d: Definition, m: seq<Entry>, a: Results)
    requires ValidEnv(env) && Agrees(env, live, d, m, a)
    ensures ObjectsOf(RowsOf(Values(d), a)) == set e | e in Matching(env, live, d, m) :: e.Key()
  {
    var rows := RowsOf(Values(d), a);
    forall k | k in ObjectsOf(rows)
      ensures exists e :: e in Matching(env, live, d, m) && e.Key() == k
    {
      var r :| r in rows && r.Key() == k;
      RowsOfIn(Values(d), a, r);
      var t :| t in Values(d) && t in a && r in a[t];
      RowHasEntry(env, live, d, m, a, t, r);
      var e :| e in m && ComesFrom(env, live, d, t, e, r) && e.Key() == r.Key();
      assert MatchesSome(env, live, d, e);
    }
    forall e | e in Matching(env, live, d, m)
      ensures e.Key() in ObjectsOf(rows)
    {
      var t :| t in Values(d) && env.contributes(live, d, e, t).Some?;
      EntryHasRow(env, live, d, m, a, t, e);
      var r :| r in a[t] && r.Key() == e.Key();
      RowsOfIn(Values(d), a, r);
    }
  }

  lemma {:induction false} DistinctKeysCount(entries: set<Entry>)
    requires forall a, b :: a in entries && b in entries && a.Key() == b.Key() ==> a == b
    ensures |set e | e in entries :: e.Key()| == |entries|
    decreases |entries|
  {
    if entries != {} {
      var a :| a in entries;
      var rest := entries - {a};
      DistinctKeysCount(rest);
      var keys := set e | e in rest :: e.Key();
      assert a.Key() !in keys;
      assert (set e | e in entries :: e.Key()) == keys + {a.Key()};
    }
  }

  /** The objects to copy are as many as the reported `matches_found`: the listed objects that match some term. */
  lemma SourcesOfAgreeing(env: Env, live: Live, d: Definition, m: seq<Entry>, a: Results)
    requires ValidEnv(env) && Agrees(env, live, d, m, a)
    ensures |InKeyOrder(SourcesByKey(RowsOf(Values(d), a)))| == |ObjectsOf(RowsOf(Values(d), a))| ==
              |Matching(env, live, d, m)|
  {
    UniqueSourcesProperties(RowsOf(Values(d), a));
    ObjectsAreMatching(env, live, d, m, a);
    forall x, y | x in Matching(env, live, d, m) && y in Matching(env, live, d, m) && x.Key() == y.Key()
      ensures x == y
    {
      SameKeySameEntry(m, x, y);
    }
    DistinctKeysCount(Matching(env, live, d, m));
  }

  lemma RowsStamped(env: Env, live: Live, d: Definition, m: seq<Entry>, a: Results, terms: seq<string>)
    requires ValidEnv(env) && Stamped(env) && Agrees(env, live, d, m, a) && forall t :: t in terms ==> t in Values(d)
    ensures forall r :: r in RowsOf(terms, a) ==> r.generation == GenerationIn(m)(r.Key())
  {
    forall r | r in RowsOf(terms, a)
      ensures r.generation == GenerationIn(m)(r.Key())
    {
      RowsOfIn(terms, a, r);
      var t :| t in terms && t in a && r in a[t];
      RowGeneration(env, live, d, m, a, t, r);
    }
  }

  /** The order in which the terms are visited does not matter for what is visited. */
  lemma SameTermsSameObjects(terms: seq<string>, terms': seq<string>, a: Results)
    requires forall t :: t in terms <==> t in terms'
    ensures ObjectsOf(RowsOf(terms, a)) == ObjectsOf(RowsOf(terms', a))
  {
    forall r
      ensures r in RowsOf(terms, a) <==> r in RowsOf(terms', a)
    {
      RowsOfIn(terms, a, r);
      RowsOfIn(terms', a, r);
    }
  }

  lemma AgreeingSourcesSame(env: Env, live: Live, d: Definition, m: seq<Entry>, a: Results, terms: seq<string>,
                            b: Results)
    requires ValidEnv(env) && Stamped(env) && Agrees(env, live, d, m, a) && Agrees(env, live, d, m, b)
    requires forall t :: t in terms <==> t in Values(d)
    ensures InKeyOrder(SourcesByKey(RowsOf(Values(d), a))) == InKeyOrder(SourcesByKey(RowsOf(terms, b)))
  {
    ObjectsAreMatching(env, live, d, m, a);
    ObjectsAreMatching(env, live, d, m, b);
    SameTermsSameObjects(terms, Values(d), b);
    RowsStamped(env, live, d, m, a, Values(d));
    RowsStamped(env, live, d, m, b, terms);
    SourcesCanonical(RowsOf(Values(d), a), RowsOf(terms, b), GenerationIn(m));
  }

  /**
   * After any chain of incremental runs the copied objects, with their generations, are those of a fresh search of
   * the listed manifest, in whatever order the terms and rows are visited, and there are as many as matching objects.
   */
  lemma SourcesAreFresh(env: Env, run: seq<State>, i: nat, w: nat, terms: seq<string>)
    requires HasAnswer(env, run, i, w) && Stamped(env)
    requires forall t :: t in terms <==> t in Values(run[i].workers[w].d)
    ensures var x := run[i].workers[w];
      var sources := InKeyOrder(SourcesByKey(RowsOf(terms, x.results)));
      && sources == InKeyOrder(SourcesByKey(RowsOf(Values(x.d), Fresh(env, run[i].live, x.d, x.m))))
      && |sources| == |Matching(env, run[i].live, x.d, x.m)|
  {
    var x := run[i].workers[w];
    AnswerAgrees(env, run, i, w);
    FreshAgrees(env, run[i].live, x.d, x.m);
    AgreeingSourcesSame(env, run[i].live, x.d, x.m, Fresh(env, run[i].live, x.d, x.m), terms, x.results);
    SourcesOfAgreeing(env, run[i].live, x.d, x.m, Fresh(env, run[i].live, x.d, x.m));
  }

  lemma FreshAgrees(env: Env, live: Live, d: Definition, m: seq<Entry>)
    requires ValidEnv(env) && Listable(m)
    ensures Agrees(env, live, d, m, Fresh(env, live, d, m))
  {
    forall t | t in Values(d)
      ensures SameRows(Fresh(env, live, d, m)[t], RowsFor(m, t, MatcherAt(env, live, d)))
    {
      SameRowsPermutation(Fresh(env, live, d, m)[t], RowsFor(m, t, MatcherAt(env, live, d)));
    }
  }

  /** Bucket names have no slash, and no two listed objects share an absolute name. */
  ghost predicate CopyableNames(m: seq<Entry>) {
    (forall e :: e in m ==> IsSegment(e.bucket)) && NoSharedAbsolute(set e | e in m :: e.Key())
  }

  lemma CopyableRows(env: Env, live: Live, d: Definition, m: seq<Entry>, a: Results)
    requires ValidEnv(env) && Agrees(env, live, d, m, a) && CopyableNames(m)
    ensures forall r :: r in RowsOf(Values(d), a) ==> IsSegment(r.bucket)
    ensures NoSharedAbsolute(ObjectsOf(RowsOf(Values(d), a)))
  {
    var keys := set e | e in m :: e.Key();
    forall r | r in RowsOf(Values(d), a)
      ensures IsSegment(r.bucket) && r.Key() in keys
    {
      RowsOfIn(Values(d), a, r);
      var t :| t in Values(d) && t in a && r in a[t];
      RowHasEntry(env, live, d, m, a, t, r);
      var e :| e in m && ComesFrom(env, live, d, t, e, r) && e.Key() == r.Key();
      assert r.Key() == ObjectKey(e.bucket, e.path);
    }
    assert ObjectsOf(RowsOf(Values(d), a)) <= keys;
  }

  /**
   * However the cache arrived at the answer and in whatever order the pool copies, the target bucket ends up as
   * after copying the matches of a fresh search one by one.
   */
  lemma CopiesAreFresh(env: Env, run: seq<State>, i: nat, w: nat,
                       job: CopyJob, objects: map<string, CopySource>, order: seq<CopySource>)
    requires HasAnswer(env, run, i, w) && Stamped(env)
    requires IsSegment(job.jobId) && CopyableNames(run[i].workers[w].m)
    requires var x := run[i].workers[w];
      multiset(order) == multiset(InKeyOrder(SourcesByKey(RowsOf(Values(x.d), x.results))))
    ensures var x := run[i].workers[w];
      CopyAll(job, objects, order) ==
      CopyAll(job, objects, InKeyOrder(SourcesByKey(RowsOf(Values(x.d), Fresh(env, run[i].live, x.d, x.m)))))
  {
    var x := run[i].workers[w];
    AnswerAgrees(env, run, i, w);
    CopyableRows(env, run[i].live, x.d, x.m, x.results);
    SourcesAreFresh(env, run, i, w, Values(x.d));
    var sources := InKeyOrder(SourcesByKey(RowsOf(Values(x.d), x.results)));
    SourcesSeparateIff(job, RowsOf(Values(x.d), x.results));
    CopyOrderIrrelevant(job, objects, sources, order);
  }

  /** A listed object that matches is among the sources, with its listed generation. */
  lemma MatchIsSource(env: Env, run: seq<State>, i: nat, w: nat, e: Entry)
    requires HasAnswer(env, run, i, w) && Stamped(env)
    requires e in run[i].workers[w].m && MatchesSome(env, run[i].live, run[i].workers[w].d, e)
    ensures var x := run[i].workers[w];
      CopySource(e.Key(), e.generation) in InKeyOrder(SourcesByKey(RowsOf(Values(x.d), x.results)))
  {
    var x := run[i].workers[w];
    var rows := RowsOf(Values(x.d), x.results);
    AnswerAgrees(env, run, i, w);
    ObjectsAreMatching(env, run[i].live, x.d, x.m, x.results);
    assert e in Matching(env, run[i].live, x.d, x.m);
    assert e.Key() in ObjectsOf(rows);
    SourceKeys(rows);
    RowsStamped(env, run[i].live, x.d, x.m, x.results, Values(x.d));
    SourcesHaveGeneration(rows, GenerationIn(x.m));
    ListedUnder(x.m, e);
    var sources := InKeyOrder(SourcesByKey(rows));
    var k :| 0 <= k < |sources| && sources[k].key == e.Key();
    assert sources[k] in sources;
  }

  lemma ListedUnder(m: seq<Entry>, e: Entry)
    requires UniqueKeys(m) && e in m
    ensures GenerationIn(m)(e.Key()) == e.generation
  {
    ByKeyProperties(m);
    assert Refresh.Holds(ByKey(m), e);
  }

  /**
   * A listed object that matches some term,
       has a relative name and can be read is copied: whatever the cache did and in
   * whatever order the pool copies, it stands at its place under its listed generation, if that place was free or may
   * be overwritten.
   */
  lemma MatchIsCopied(env: Env, run: seq<State>, i: nat, w: nat, job: CopyJob, objects: map<string, CopySource>,
                      order: seq<CopySource>, e: Entry)
    requires HasAnswer(env, run, i, w) && Stamped(env)
    requires IsSegment(job.jobId) && CopyableNames(run[i].workers[w].m)
    requires var x := run[i].workers[w];
      multiset(order) == multiset(InKeyOrder(SourcesByKey(RowsOf(Values(x.d), x.results))))
    requires e in run[i].workers[w].m && MatchesSome(env, run[i].live, run[i].workers[w].d, e) && IsRelative(e.path)
    requires Readable(job, CopySource(e.Key(), e.generation))
    requires job.overwrite || Place(job.prefix, job.jobId, e.Key()) !in objects
    ensures var name, after := Place(job.prefix, job.jobId, e.Key()), CopyAll(job, objects, order);
      name in after && after[name] == CopySource(e.Key(), e.generation)
  {
    MatchIsSource(env, run, i, w, e);
    SeparateOrder(env, run, i, w, job, order);
    var k :| 0 <= k < |order| && order[k] == CopySource(e.Key(), e.generation);
    CopiedToItsPlace(job, objects, order, k);
  }

  lemma SeparateOrder(env: Env, run: seq<State>, i: nat, w: nat, job: CopyJob, order: seq<CopySource>)
    requires HasAnswer(env, run, i, w) && IsSegment(job.jobId) && CopyableNames(run[i].workers[w].m)
    requires var x := run[i].workers[w];
      multiset(order) == multiset(InKeyOrder(SourcesByKey(RowsOf(Values(x.d), x.results))))
    ensures SeparateDestinations(job, order)
    ensures var x := run[i].workers[w];
      forall s :: s in order <==> s in InKeyOrder(SourcesByKey(RowsOf(Values(x.d), x.results)))
  {
    var x := run[i].workers[w];
    AnswerAgrees(env, run, i, w);
    CopyableRows(env, run[i].live, x.d, x.m, x.results);
    SourcesSeparateIff(job, RowsOf(Values(x.d), x.results));
    SeparatePermutation(job, InKeyOrder(SourcesByKey(RowsOf(Values(x.d), x.results))), order);
  }

  // ---------- an oversized snapshot of a real search ----------

  const LISTED_FIRST := Entry("bkt", "x", "", "", 0, 1, "")
  const LISTED_NEXT := Entry("bkt", "y/x", "", "", 0, 1, "")

  /** A filename search for one name. */
  function SearchForX(): Definition { Definition(Filename, "project", [("bkt", "")], [SearchTerm("x", Literal)], None) }

  lemma OneTermTotal(world: World, m: seq<Entry>)
    requires forall e :: e in m ==> Text.IsBasename(e.path, "x")
    ensures TotalRows(Values(SearchForX()), Fresh(EnvOf(world, 1), map[], SearchForX(), m)) == |m|
  {
    var env, d := EnvOf(world, 1), SearchForX();
    var f := MatcherAt(env, map[], d);
    assert Values(d) == ["x"];
    forall e | e in m
      ensures f(e, "x").Some?
    {
      Text.BasenameIff(e.path, "x");
      assert f(e, "x") == env.contributes(map[], d, e, "x") == FilenameMatch(world.casefold, e, "x");
    }
    MapFilterLength(m, (e: Entry) => f(e, "x"));
    PermutationElements(RowsFor(m, "x", f), SortOn(RowsFor(m, "x", f), RowKey, KeyLe));
    assert Values(d)[1..] == [];
  }

  lemma OnlyNextChanged()
    ensures Listable([LISTED_FIRST]) && Listable([LISTED_FIRST, LISTED_NEXT])
    ensures var changed := DiffManifests([LISTED_FIRST], [LISTED_FIRST, LISTED_NEXT]).changed;
      |changed| == 1 && forall e :: e in changed ==> e == LISTED_NEXT
  {
    ChangedCharacterised([LISTED_FIRST], [LISTED_FIRST, LISTED_NEXT]);
    ChangedCount([LISTED_FIRST], [LISTED_FIRST, LISTED_NEXT]);
    assert NewEntries([LISTED_FIRST, LISTED_NEXT], [LISTED_FIRST]) == {LISTED_NEXT};
  }

  lemma BothNamedX()
    ensures Text.IsBasename(LISTED_FIRST.path, "x") && Text.IsBasename(LISTED_NEXT.path, "x")
  {
    assert "y/x"[1..] == "/x";
  }

  /** Each listing fits one row, or adds one row to what fits, but both objects together do not. */
  lemma OversizedTogether(world: World)
    ensures var env, d, m, m' := EnvOf(world, 1), SearchForX(), [LISTED_FIRST], [LISTED_FIRST, LISTED_NEXT];
      && CacheExamples.Fits(env, d, m) && CacheExamples.Fits(env, d, DiffManifests(m, m').changed)
      && !CacheExamples.Fits(env, d, m')
  {
    BothNamedX();
    OnlyNextChanged();
    OneTermTotal(world, [LISTED_FIRST]);
    OneTermTotal(world, [LISTED_FIRST, LISTED_NEXT]);
    OneTermTotal(world, DiffManifests([LISTED_FIRST], [LISTED_FIRST, LISTED_NEXT]).changed);
  }

  /** With a limit of one row: one object is found and saved, one more is listed, and both are saved as COMPLETE. */
  lemma OversizedExample(world: World) returns (run: seq<State>)
    ensures IsRun(EnvOf(world, 1), run)
    ensures var s := run[|run| - 1];
      && IsComplete(s.tables, SearchForX(), 1)
      && TotalRows(Values(SearchForX()), CacheExamples.LoadedFrom(s.tables, 1, SearchForX())) > 1
  {
    EnvIsValid(world, 1);
    OnlyNextChanged();
    OversizedTogether(world);
    SearchForXIsValid();
    run := CacheExamples.OversizedSnapshot(EnvOf(world, 1), SearchForX(), [LISTED_FIRST], [LISTED_FIRST, LISTED_NEXT]);
    assert CacheExamples.Last(run) == run[|run| - 1];
  }

  lemma SearchForXIsValid()
    ensures ValidDefinition(SearchForX())
  {
    assert Values(SearchForX()) == ["x"];
  }
}
