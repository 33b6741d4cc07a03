/** When snapshots were begun, and which of them a later run is based on. */
module CacheTimes {
  import opened CacheProtocol
  import opened CacheTables
  import opened Refresh
  import opened Wrappers

  /** Some worker began the snapshot `id` between states `k` and `k + 1` of the run, at time `now`. */
  ghost predicate BegunAt(env: Env, run: seq<State>, k: int, id: CacheId, now: nat) {
    0 <= k < |run| - 1 && BegunBetween(env, run[k], run[k + 1], id, now)
  }

  ghost predicate BegunBetween(env: Env, s: State, s': State, id: CacheId, now: nat) {
    exists w, o :: Begins(env, s, w, id, now, o, s')
  }

  ghost predicate Begins(env: Env, s: State, w: nat, id: CacheId, now: nat, o: Outcome, s': State) {
    TookEffect(o) && Step(env, s, w, InsertPending(id, now, o), s')
  }

  /** A new snapshot carries the time at which it was begun, and is not complete yet. */
  lemma BegunDate(env: Env, s: State, w: nat, id: CacheId, now: nat, o: Outcome, s': State)
    requires Begins(env, s, w, id, now, o, s')
    ensures id !in s.tables.runs && id in s'.tables.runs
    ensures s'.tables.runs[id].created == now && s'.tables.runs[id].status == Pending
    ensures forall other :: other != id ==> (other in s'.tables.runs <==> other in s.tables.runs)
  {}

  /** No step changes the time of a snapshot, or removes one. */
  lemma StepKeepsTimes(env: Env, s: State, w: nat, a: Action, s': State, id: CacheId)
    requires Step(env, s, w, a, s') && id in s.tables.runs
    ensures id in s'.tables.runs && s'.tables.runs[id].created == s.tables.runs[id].created
  {}

  /** Only the beginning of a snapshot adds one. */
  lemma NewMeansBegun(env: Env, s: State, w: nat, a: Action, s': State, id: CacheId)
    requires Step(env, s, w, a, s') && id !in s.tables.runs && id in s'.tables.runs
    ensures a.InsertPending? && a.id == id && Begins(env, s, w, id, a.now, a.outcome, s')
  {}

  /** The time of a snapshot never changes. */
  lemma {:induction false} TimesFixed(env: Env, run: seq<State>, i: nat, j: nat, id: CacheId)
    requires IsRun(env, run) && i <= j < |run| && id in run[i].tables.runs
    ensures id in run[j].tables.runs && run[j].tables.runs[id].created == run[i].tables.runs[id].created
    decreases j - i
  {
    if i < j {
      TimesFixed(env, run, i, j - 1, id);
      assert MovesAt(env, run, j - 1);
      var w, a :| Step(env, run[j - 1], w, a, run[j]);
      StepKeepsTimes(env, run[j - 1], w, a, run[j], id);
    }
  }

  /** Every snapshot was begun once, at the time that it carries. */
  lemma {:induction false} EverySnapshotBegun(env: Env, run: seq<State>, j: nat, id: CacheId) returns (k: nat)
    requires IsRun(env, run) && j < |run| && id in run[j].tables.runs
    ensures k < j && BegunAt(env, run, k, id, run[j].tables.runs[id].created)
  {
    if j > 0 && id in run[j - 1].tables.runs {
      TimesFixed(env, run, j - 1, j, id);
      k := EverySnapshotBegun(env, run, j - 1, id);
    } else {
      assert j > 0;
      assert MovesAt(env, run, j - 1);
      var w, a :| Step(env, run[j - 1], w, a, run[j]);
      NewMeansBegun(env, run[j - 1], w, a, run[j], id);
      k := j - 1;
      BegunDate(env, run[k], w, id, a.now, a.outcome, run[j]);
      assert Begins(env, run[k], w, id, a.now, a.outcome, run[k + 1]);
    }
  }

  /** A snapshot begun at some time carries that time ever after. */
  lemma BegunTime(env: Env, run: seq<State>, k: nat, j: nat, id: CacheId, now: nat)
    requires IsRun(env, run) && k < j < |run| && BegunAt(env, run, k, id, now)
    ensures id in run[j].tables.runs && run[j].tables.runs[id].created == now
  {
    var w, o :| Begins(env, run[k], w, id, now, o, run[k + 1]);
    BegunDate(env, run[k], w, id, now, o, run[k + 1]);
    TimesFixed(env, run, k + 1, j, id);
  }

  /** The clock does not go back between the beginnings of two snapshots. */
  ghost predicate ClockRuns(env: Env, run: seq<State>) {
    forall k, l, a, b, m, n :: k < l && BegunAt(env, run, k, a, m) && BegunAt(env, run, l, b, n) ==> m <= n
  }

  /**
   * The base that a run chooses was begun after every other complete snapshot of its definition that was begun at
   * another time: by the recorded times, and, when the clock does not go back, in the order of events.
   */
  lemma BaseIsLastPersisted(env: Env, run: seq<State>, i: nat, w: nat, base: CacheId, other: CacheId,
                            k: nat, l: nat, m: nat, n: nat)
    requires IsRun(env, run) && i + 1 < |run| && Step(env, run[i], w, Lookup(Some(base)), run[i + 1])
    requires k < i && BegunAt(env, run, k, base, m) && l < i && BegunAt(env, run, l, other, n) && m != n
    requires w in run[i].workers && run[i].workers[w].Listed? && IsComplete(run[i].tables, run[i].workers[w].d, other)
    ensures n < m && (ClockRuns(env, run) ==> l < k)
  {
    BegunTime(env, run, k, i, base, m);
    BegunTime(env, run, l, i, other, n);
    if ClockRuns(env, run) && k < l {
      ClockOrder(env, run, k, l, base, m, other, n);
    }
    if k == l {
      BegunOnce(env, run, k, base, m, other, n);
    }
  }

  lemma ClockOrder(env: Env, run: seq<State>, k: nat, l: nat, a: CacheId, m: nat, b: CacheId, n: nat)
    requires ClockRuns(env, run) && k < l && BegunAt(env, run, k, a, m) && BegunAt(env, run, l, b, n)
    ensures m <= n
  {}

  /** One step begins one snapshot. */
  lemma BegunOnce(env: Env, run: seq<State>, k: nat, a: CacheId, m: nat, b: CacheId, n: nat)
    requires BegunAt(env, run, k, a, m) && BegunAt(env, run, k, b, n)
    ensures a == b && m == n
  {
    var v, o :| Begins(env, run[k], v, a, m, o, run[k + 1]);
    var w, p :| Begins(env, run[k], w, b, n, p, run[k + 1]);
    BegunDate(env, run[k], v, a, m, o, run[k + 1]);
    BegunDate(env, run[k], w, b, n, p, run[k + 1]);
  }
}
