/** The bounded parallel map: a generator that keeps a window of futures in flight. */
module ParallelMap {
  import opened Sequences
  import opened Wrappers

  /**
   * The suspended generator. A future is named by the index of its entry. Which futures `wait` reports
   * done, and in which order they are drained, is left open.
   */
  class BoundedParallelMap {
    const size: nat            // number of entries
    const maxWorkers: nat
    var next: nat              // position of the iterator over the entries
    var pending: set<nat>      // submitted and not reported done
    var done: set<nat>         // reported done and not yet yielded
    var yielded: seq<nat>
    var resubmit: bool         // suspended after a yield, before the replacement is submitted

    ghost predicate Valid()
      reads this
    {
      && 0 < maxWorkers && next <= size
      && NoDuplicates(yielded)
      && pending !! done
      && (forall i :: i in yielded ==> i !in pending && i !in done)
      && (forall i :: 0 <= i < next <==> i in pending || i in done || i in yielded)
      && |pending| + |done| + |yielded| == next
      && Outstanding() + (if resubmit then 1 else 0) <= 2 * maxWorkers
      && (next < size ==> Outstanding() + (if resubmit then 1 else 0) == 2 * maxWorkers)
    }

    /** Futures submitted whose results have not been consumed. */
    function Outstanding(): nat
      reads this
    {
      |pending| + |done|
    }

    constructor (size: nat, maxWorkers: nat)
      requires maxWorkers > 0
      ensures Valid() && this.size == size && this.maxWorkers == maxWorkers && yielded == []
    {
      this.size, this.maxWorkers := size, maxWorkers;
      next, pending, done, yielded, resubmit := 0, {}, {}, [], false;
      new;
      for k := 0 to 2 * maxWorkers
        invariant forall i: nat :: i in pending <==> i < next
        invariant |pending| == next <= size && (next == k || (next < k && next == size))
        invariant done == {} && yielded == [] && !resubmit
      {
        if next == size {
          break;
        }
        Submit();
      }
    }

    method Submit()
      requires next !in pending
      modifies this`next, this`pending
      ensures next == old(next) + 1 && pending == old(pending) + {old(next)}
      ensures |pending| == |old(pending)| + 1
    {
      pending := pending + {next};
      next := next + 1;
    }

    /**
     * Resumes the generator up to its next yield. Every result comes out exactly once, the window never
     * grows beyond twice the workers, and the generator ends only when every entry has been yielded.
     */
    method Advance() returns (r: Option<nat>)
      requires Valid()
      modifies this
      ensures Valid() && Outstanding() <= 2 * maxWorkers
      ensures r.None? ==> yielded == old(yielded) && |yielded| == size && Outstanding() == 0
      ensures r.Some? ==> r.value < size && r.value !in old(yielded) && yielded == old(yielded) + [r.value]
      ensures r.Some? <==> |old(yielded)| < size
    {
      if resubmit {
        Resubmit();
      }
      if done == {} {
        if pending == {} {
          return None;
        }
        Wait();
      }
      var i := Take();
      r := Some(i);
    }

    /** After a yield: the next entry, if there is one, replaces the consumed future. */
    method Resubmit()
      requires Valid() && resubmit
      modifies this`next, this`pending, this`resubmit
      ensures Valid() && !resubmit
    {
      resubmit := false;
      if next < size {
        Submit();
      }
    }

    /** `wait(pending, return_when=FIRST_COMPLETED)`: some nonempty part of the pending futures is done. */
    method Wait()
      requires Valid() && !resubmit && pending != {} && done == {}
      modifies this`pending, this`done
      ensures Valid() && done != {}
    {
      var completed :| completed <= pending && completed != {};
      done, pending := completed, pending - completed;
      assert old(pending) == done + pending;
      assert |old(pending)| == |done| + |pending|;
    }

    /** One step of the drain loop: an arbitrary done future is yielded. */
    method Take() returns (i: nat)
      requires Valid() && !resubmit && done != {}
      modifies this`done, this`yielded, this`resubmit
      ensures Valid() && i < size && i !in old(yielded) && yielded == old(yielded) + [i]
    {
      var chosen: nat :| chosen in done;
      i := chosen;
      done := done - {i};
      yielded := yielded + [i];
      resubmit := true;
    }
  }

  ghost predicate InRange(order: seq<nat>, n: nat) { forall k :: 0 <= k < |order| ==> order[k] < n }

  ghost function Pick<T>(items: seq<T>, order: seq<nat>): (r: seq<T>)
    requires InRange(order, |items|)
    ensures |r| == |order|
  {
    seq(|order|, k requires 0 <= k < |order| => items[order[k]])
  }

  /** Distinct indices pick no item more often than it is there. */
  lemma {:induction false} PickContained<T>(items: seq<T>, order: seq<nat>)
    requires NoDuplicates(order) && InRange(order, |items|)
    ensures multiset(Pick(items, order)) <= multiset(items)
    decreases |items|
  {
    if items == [] {
      EmptySequence(order);
    } else {
      var last := |items| - 1;
      assert items == items[..last] + [items[last]];
      if p :| 0 <= p < |order| && order[p] == last {
        PickWithout(items, order, p);
        PickContained(items[..last], order[..p] + order[p + 1..]);
      } else {
        assert InRange(order, last);
        assert Pick(items, order) == Pick(items[..last], order);
        PickContained(items[..last], order);
      }
    }
  }

  lemma OrderWithout(order: seq<nat>, p: nat, last: nat)
    requires NoDuplicates(order) && InRange(order, last + 1) && p < |order| && order[p] == last
    ensures NoDuplicates(order[..p] + order[p + 1..]) && InRange(order[..p] + order[p + 1..], last)
  {
    var rest := order[..p] + order[p + 1..];
    assert forall k :: 0 <= k < |rest| ==> rest[k] == order[if k < p then k else k + 1];
  }

  lemma PickWithout<T>(items: seq<T>, order: seq<nat>, p: nat)
    requires NoDuplicates(order) && InRange(order, |items|)
    requires p < |order| && order[p] == |items| - 1
    ensures var rest := order[..p] + order[p + 1..];
      && NoDuplicates(rest) && InRange(rest, |items| - 1)
      && multiset(Pick(items, order)) == multiset(Pick(items[..|items| - 1], rest)) + multiset{items[|items| - 1]}
  {
    var last, rest := |items| - 1, order[..p] + order[p + 1..];
    OrderWithout(order, p, last);
    PickPrefix(items, last, rest);
    assert InRange(order[..p], |items|) && InRange(order[p + 1..], |items|);
    PickConcat(items, order[..p], order[p + 1..]);
    PickBetween(items, order[..p], last, order[p + 1..]);
    assert order == order[..p] + ([last] + order[p + 1..]);
  }

  lemma PickBetween<T>(items: seq<T>, a: seq<nat>, i: nat, b: seq<nat>)
    requires InRange(a, |items|) && i < |items| && InRange(b, |items|)
    ensures InRange(a + ([i] + b), |items|)
    ensures Pick(items, a + ([i] + b)) == Pick(items, a) + ([items[i]] + Pick(items, b))
  {
    PickConcat(items, [i], b);
    PickConcat(items, a, [i] + b);
    assert Pick(items, [i]) == [items[i]];
  }

  lemma PickConcat<T>(items: seq<T>, a: seq<nat>, b: seq<nat>)
    requires InRange(a, |items|) && InRange(b, |items|)
    ensures InRange(a + b, |items|) && Pick(items, a + b) == Pick(items, a) + Pick(items, b)
  {}

  lemma PickPrefix<T>(items: seq<T>, n: nat, order: seq<nat>)
    requires n <= |items| && InRange(order, n)
    ensures InRange(order, |items|) && Pick(items[..n], order) == Pick(items, order)
  {}

  /** The order in which a finished generator yielded is a permutation of the entries. */
  lemma PickAll<T>(items: seq<T>, order: seq<nat>)
    requires NoDuplicates(order) && |order| == |items| && InRange(order, |items|)
    ensures multiset(Pick(items, order)) == multiset(items)
  {
    PickContained(items, order);
    var picked := multiset(Pick(items, order));
    assert |multiset(items) - picked| == 0;
    assert multiset(items) == picked + (multiset(items) - picked);
  }

  /** What distinct indices do not pick can be listed. */
  lemma PickRest<T>(items: seq<T>, order: seq<nat>) returns (rest: seq<T>)
    requires NoDuplicates(order) && InRange(order, |items|)
    ensures multiset(Pick(items, order) + rest) == multiset(items)
  {
    PickContained(items, order);
    rest := Listing(multiset(items) - multiset(Pick(items, order)));
  }

  lemma {:induction false} Listing<T>(m: multiset<T>) returns (s: seq<T>)
    ensures multiset(s) == m
  {
    if m == multiset{} {
      s := [];
    } else {
      var x :| x in m;
      s := Listing(m - multiset{x});
      s := s + [x];
    }
  }
}
