/** The task handler of the worker, written out over the store, as one handler of the job protocol. */
module Worker {
  import opened JobProtocol
  import opened JobSafety
  import opened Jobs
  import opened Wrappers

  /** What the surroundings of one delivery decide: the policy, the executor, and how each remote call ends. */
  datatype Surroundings = Surroundings(
    fetched: bool, allowed: bool, reject: Outcome, claim: Outcome,
    result: Option<Call>, report: Outcome, fail: Outcome, now: nat)

  /** The success that the executor reports is one for this job. */
  predicate ForJob(x: Surroundings, job: string) {
    x.result.Some? ==> x.result.value.Succeed? && x.result.value.id == job
  }

  /** The record of a job after its executor raised. */
  function ExecutionFailure(r: JobRecord, job: string, now: nat): JobRecord {
    FailedRecord(r, Fail(job, now, "EXECUTION_FAILED", ExecutionMessage(job)))
  }

  function PolicyFailure(r: JobRecord, job: string, now: nat): JobRecord {
    FailedRecord(r, Fail(job, now, "POLICY_REJECTED", "Job policy is no longer valid"))
  }

  /** The handler answers 204: every call it depends on returns, or it was caught and the failure was recorded. */
  predicate Answers(docs: Docs, job: string, x: Surroundings) {
    && x.fetched
    && (job !in docs || docs[job].status != Queued
        || (if !x.allowed then x.reject == Returns
            else x.fail == Returns || (x.claim == Returns && x.result.Some? && x.report == Returns)))
  }

  /**
   * What an answered delivery leaves in the store: nothing changed unless the job was queued; a rejection; the
   * success of the executor; or a failure, of a job that was started exactly when its claim took effect.
   */
  function Handled(docs: Docs, job: string, x: Surroundings): Docs
    requires ForJob(x, job)
  {
    if job !in docs || docs[job].status != Queued then docs
    else
      var started := Claimed(docs[job], x.now);
      if !x.allowed then docs[job := PolicyFailure(docs[job], job, x.now)]
      else if x.claim == RaisesBefore then docs[job := ExecutionFailure(docs[job], job, x.now)]
      else if x.claim == Returns && x.result.Some? && TookEffect(x.report) then
        docs[job := SucceededRecord(started, x.result.value)]
      else docs[job := ExecutionFailure(started, job, x.now)]
  }

  /**
   * What an answered delivery leaves in the store, field by field: nothing changed unless the job was queued; a
   * rejection; a success with the values that the executor produced; or a failure, of a job that has a start time
   * exactly when its claim took effect. No other job is touched.
   */
  predicate LeavesBehind(before: Docs, after: Docs, job: string, x: Surroundings)
    requires ForJob(x, job)
  {
    if job !in before || before[job].status != Queued then after == before
    else
      var r := before[job];
      if !x.allowed then
        after == before[job := r.(
          status := Failed, finished := Some(x.now),
          errorCode := Some("POLICY_REJECTED"), errorMessage := Some("Job policy is no longer valid"))]
      else if x.claim == Returns && x.result.Some? && TookEffect(x.report) then
        var c := x.result.value;
        after == before[job := r.(
          status := Succeeded, started := Some(x.now), finished := Some(c.now), artifact := Some(c.artifact),
          cacheRunId := c.cacheRunId, filesScanned := c.filesScanned, matchesFound := Some(c.matchesFound))]
      else
        after == before[job := r.(
          status := Failed, started := if x.claim == RaisesBefore then r.started else Some(x.now),
          finished := Some(x.now), errorCode := Some("EXECUTION_FAILED"),
          errorMessage := Some(if |ExecutionMessage(job)| <= 1000 then ExecutionMessage(job)
                               else ExecutionMessage(job)[..1000]))]
  }

  lemma HandledWhenRaised(docs: Docs, job: string, x: Surroundings)
    requires ForJob(x, job) && job in docs && docs[job].status == Queued && x.allowed && x.claim != Returns
    ensures var r := if TookEffect(x.claim) then Claimed(docs[job], x.now) else docs[job];
      Handled(docs, job, x) == docs[job := r][job := ExecutionFailure(r, job, x.now)]
  {}

  lemma HandledWhenWon(docs: Docs, job: string, x: Surroundings)
    requires ForJob(x, job) && job in docs && docs[job].status == Queued && x.allowed && x.claim == Returns
    ensures var r := Claimed(docs[job], x.now);
      Handled(docs, job, x) == docs[job := r][job :=
        if x.result.Some? && TookEffect(x.report) then SucceededRecord(r, x.result.value)
            else ExecutionFailure(r, job, x.now)]
  {}

  lemma HandledIs(before: Docs, job: string, x: Surroundings)
    requires ForJob(x, job)
    ensures LeavesBehind(before, Handled(before, job, x), job, x)
  {}

  /** Nothing happens to delivery `h`. */
  ghost predicate LeftAlone(h: nat, s: State, s': State) {
    SameAt(h, s.handlers, s'.handlers) && s'.store == s.store && s.tasks <= s'.tasks
  }

  class JobWorker {
    const store: FirestoreJobStore
    /** What requests and other deliveries try to do before each step of a delivery. */
    const schedule: nat -> seq<Action>
    var clock: nat
    /** Where everybody stands; the documents are those of the store. */
    var state: State
    /** The states of the whole system up to now. */
    ghost var run: seq<State>

    ghost predicate Valid()
      reads this, store
    {
      IsRun(run) && run[|run| - 1] == state && state.store == Firestore && state.docs == store.documents
    }

    predicate At(h: nat, x: Handler)
      reads this
    {
      h in state.handlers && state.handlers[h] == x
    }

    /** The schedule leaves this worker alone. */
    ghost predicate Quiet() { forall k :: schedule(k) == [] }

    constructor (store: FirestoreJobStore, schedule: nat -> seq<Action>)
      requires store.documents == map[]
      ensures Valid() && this.store == store && this.schedule == schedule && Init(state)
    {
      this.store, this.schedule, clock := store, schedule, 0;
      state := State(Firestore, map[], {}, map[], map[], map[], map[], map[], []);
      run := [State(Firestore, map[], {}, map[], map[], map[], map[], map[], [])];
      new;
      assert forall i :: MovesAt(run, i);
    }

    /** One step of a request or of another delivery, if it is possible. */
    method OtherStep(h: nat, a: Action)
      requires Valid()
      modifies this`state, this`run, store
      ensures Valid() && old(run) <= run && LeftAlone(h, old(state), state)
    {
      if Actor(a) != Some(h) && Step(state, a).Some? {
        OtherActor(state, a, h);
        run := ExtendRun(run, a);
        state := Step(state, a).value;
        store.documents := state.docs;
      }
    }

    /** Requests come in, tasks are delivered again, and other deliveries go on. */
    method Others(h: nat)
      requires Valid()
      modifies this, store
      ensures Valid() && old(run) <= run && LeftAlone(h, old(state), state)
      ensures Quiet() ==> state == old(state)
    {
      var wanted := schedule(clock);
      clock := clock + 1;
      for k := 0 to |wanted|
        invariant Valid() && old(run) <= run && LeftAlone(h, old(state), state)
        invariant k == 0 ==> state == old(state)
      {
        OtherStep(h, wanted[k]);
      }
    }

    /** A step of the protocol whose effect on the documents, if any, the store already shows. */
    method Follow(a: Action)
      requires IsRun(run) && run[|run| - 1] == state && state.store == Firestore
      requires Step(state, a).Some? && Step(state, a).value.docs == store.documents
      modifies this
      ensures Valid() && old(run) <= run && state == Step(old(state), a).value
    {
      StoreFixed(state, a);
      run := ExtendRun(run, a);
      state := Step(state, a).value;
    }

    /** A call of the store by the handler, which can raise without or after taking effect. */
    method Attempt(c: Call, o: Outcome) returns (reply: Reply)
      requires c.Claim? || c.Succeed? || c.Fail?
      modifies store
      ensures store.documents == if TookEffect(o) then FirestoreStep(old(store.documents), c).0
                else old(store.documents)
      ensures reply == if o == Returns then FirestoreStep(old(store.documents), c).1 else Raises
    {
      reply := Raises;
      if TookEffect(o) {
        match c {
          case Claim(id, now) => reply := store.Claim(id, now);
          case Succeed(id, now, artifact, cacheRunId, files, matches) =>
            reply := store.Succeed(id, now, artifact, cacheRunId, files, matches);
          case Fail(id, now, code, message) => reply := store.Fail(id, now, code, message);
        }
        if o != Returns {
          reply := Raises;
        }
      }
    }

    /** The handler of an exception in the try block. */
    method HandleException(h: nat, job: string, x: Surroundings) returns (answered: bool)
      requires Valid() && At(h, Failing(job))
      modifies this, store
      ensures Valid() && old(run) <= run
      ensures answered == (x.fail == Returns)
      ensures At(h, if answered then Returned(job) else Broken(job))
      ensures Quiet() && answered && job in old(state).docs ==> var r := old(state).docs[job];
        state.docs == if r.status.Terminal() then old(state).docs
            else old(state).docs[job := ExecutionFailure(r, job, x.now)]
    {
      Others(h);
      HandlerKnown(run, h);
      var reply := Attempt(Fail(job, x.now, "EXECUTION_FAILED", ExecutionMessage(job)), x.fail);
      answered := !reply.Raises?;
      Follow(FailExecution(h, x.now, x.fail));
    }

    /** The report of a success. */
    method ReportSuccess(h: nat, job: string, success: Call, outcome: Outcome) returns (ok: bool)
      requires Valid() && At(h, Reporting(job, success)) && success.Succeed? && success.id == job
      modifies this, store
      ensures Valid() && old(run) <= run && ok == (outcome == Returns)
      ensures At(h, if ok then Returned(job) else Failing(job))
      ensures Quiet() && job in old(state).docs ==> var r := old(state).docs[job];
        state.docs == if r.status.Terminal() || !TookEffect(outcome) then old(state).docs
                      else old(state).docs[job := SucceededRecord(r, success)]
    {
      Others(h);
      HandlerKnown(run, h);
      var reply := Attempt(success, outcome);
      Follow(Report(h, outcome));
      ok := !reply.Raises?;
    }

    /** What follows a won claim: the executor, and the report of its success or failure. */
    method RunExecutor(h: nat, job: string, x: Surroundings) returns (answered: bool)
      requires Valid() && At(h, Executing(job)) && ForJob(x, job)
      modifies this, store
      ensures Valid() && old(run) <= run
      ensures answered <==> x.fail == Returns || (x.result.Some? && x.report == Returns)
      ensures At(h, if answered then Returned(job) else Broken(job))
      ensures Quiet() && answered && job in old(state).docs && !old(state).docs[job].status.Terminal() ==>
                var r := old(state).docs[job];
                state.docs == old(state).docs[job :=
                  if x.result.Some? && TookEffect(x.report) then SucceededRecord(r, x.result.value)
                      else ExecutionFailure(r, job, x.now)]
    {
      Others(h);
      Follow(Execute(h, x.result));
      if x.result.Some? {
        answered := ReportSuccess(h, job, x.result.value, x.report);
        if answered {
          return;
        }
      }
      answered := HandleException(h, job, x);
    }

    /** The claim: whether it returned, and whether it gave the job to this delivery. */
    method ClaimRecord(h: nat, job: string, x: Surroundings) returns (raised: bool, won: bool)
      requires Valid() && At(h, Validated(job))
      modifies this, store
      ensures Valid() && old(run) <= run && raised == (x.claim != Returns)
      ensures At(h, if raised then Failing(job) else if won then Executing(job) else Returned(job))
      ensures Quiet() && job in old(state).docs && old(state).docs[job].status == Queued ==>
                && (!raised ==> won)
                && state.docs == if TookEffect(x.claim)
                    then old(state).docs[job := Claimed(old(state).docs[job], x.now)]
                                 else old(state).docs
    {
      Others(h);
      var reply := Attempt(Claim(job, x.now), x.claim);
      Follow(ClaimJob(h, x.now, x.claim));
      raised, won := reply.Raises?, reply.Record?;
    }

    /** The try block of the handler. */
    method ClaimAndRun(h: nat, job: string, x: Surroundings) returns (answered: bool)
      requires Valid() && At(h, Validated(job)) && ForJob(x, job) && x.fetched && x.allowed
      modifies this, store
      ensures Valid() && old(run) <= run
      ensures At(h, if answered then Returned(job) else Broken(job))
      ensures Quiet() && job in old(state).docs && old(state).docs[job].status == Queued ==>
                && (answered <==> Answers(old(state).docs, job, x))
                && (answered ==> state.docs == Handled(old(state).docs, job, x))
    {
      var raised, won := ClaimRecord(h, job, x);
      ghost var before := old(state).docs;
      if raised {
        answered := HandleException(h, job, x);
        if Quiet() && job in before && before[job].status == Queued {
          HandledWhenRaised(before, job, x);
        }
      } else if won {
        answered := RunExecutor(h, job, x);
        if Quiet() && job in before && before[job].status == Queued {
          HandledWhenWon(before, job, x);
        }
      } else {
        answered := true;
      }
    }

    /** The delivery arrives and reads the record. */
    method FetchRecord(h: nat, job: string, x: Surroundings) returns (queued: bool)
      requires Valid() && h !in state.handlers && job in state.tasks
      modifies this, store
      ensures Valid() && old(run) <= run && job in old(state).docs
      ensures At(h, if !x.fetched then Broken(job) else if queued then Fetched(job) else Returned(job))
      ensures Quiet() ==> state.docs == old(state).docs && (queued <==> state.docs[job].status == Queued)
    {
      TaskIsKnown(run, job);
      Others(h);
      Follow(Deliver(h, job));
      Others(h);
      queued := job in store.documents && store.documents[job].status == Queued;
      Follow(Fetch(h, x.fetched));
    }

    /** A job that the policy no longer allows is failed. */
    method RejectJob(h: nat, job: string, x: Surroundings) returns (answered: bool)
      requires Valid() && At(h, Rejecting(job))
      modifies this, store
      ensures Valid() && old(run) <= run && answered == (x.reject == Returns)
      ensures At(h, if answered then Returned(job) else Broken(job))
      ensures Quiet() && answered && job in old(state).docs && old(state).docs[job].status == Queued ==>
                state.docs == old(state).docs[job := PolicyFailure(old(state).docs[job], job, x.now)]
    {
      Others(h);
      HandlerKnown(run, h);
      var reply := Attempt(Fail(job, x.now, "POLICY_REJECTED", "Job policy is no longer valid"), x.reject);
      Follow(Reject(h, x.now, x.reject));
      answered := !reply.Raises?;
    }

    /** The policy is checked again. */
    method CheckPolicy(h: nat, job: string, x: Surroundings)
      requires Valid() && At(h, Fetched(job))
      modifies this, store
      ensures Valid() && old(run) <= run
      ensures At(h, if x.allowed then Validated(job) else Rejecting(job))
      ensures Quiet() ==> state.docs == old(state).docs
    {
      Others(h);
      Follow(Validate(h, x.allowed));
    }

    /**
     * `run_job` for one delivery of the task of an existing job, while others go on. When it answers, the job is no
     * longer queued, and finished if this delivery claimed it; left alone, what it does is known exactly.
     */
    method RunJob(h: nat, job: string, x: Surroundings) returns (answered: bool)
      requires Valid() && h !in state.handlers && job in state.tasks && ForJob(x, job)
      modifies this, store
      ensures Valid() && old(run) <= run
      ensures At(h, if answered then Returned(job) else Broken(job))
      ensures answered ==> job in state.docs && state.docs[job].status != Queued
      ensures answered && ClaimedBy(state, job, h) ==> state.docs[job].status.Terminal()
      ensures Quiet() ==> (answered <==> Answers(old(state).docs, job, x))
      ensures Quiet() && answered ==> LeavesBehind(old(state).docs, state.docs, job, x)
    {
      answered := Handle(h, job, x);
      HandledIs(old(state).docs, job, x);
      if answered {
        ReturnedMeansHandled(run, |run| - 1, h);
      }
    }

    /** The body of the handler. */
    method Handle(h: nat, job: string, x: Surroundings) returns (answered: bool)
      requires Valid() && h !in state.handlers && job in state.tasks && ForJob(x, job)
      modifies this, store
      ensures Valid() && old(run) <= run
      ensures At(h, if answered then Returned(job) else Broken(job))
      ensures Quiet() ==> (answered <==> Answers(old(state).docs, job, x))
      ensures Quiet() && answered ==> state.docs == Handled(old(state).docs, job, x)
    {
      var queued := FetchRecord(h, job, x);
      if !x.fetched {
        return false;
      }
      if !queued {
        return true;
      }
      CheckPolicy(h, job, x);
      if x.allowed {
        answered := ClaimAndRun(h, job, x);
      } else {
        answered := RejectJob(h, job, x);
      }
    }
  }

  lemma CallerLeavesAlone(s: State, a: Action, h: nat)
    requires CallerStep(s, a).Some?
    ensures LeftAlone(h, s, CallerStep(s, a).value)
  {}

  lemma HandlerLeavesAlone(s: State, a: Action, h: nat)
    requires HandlerStep(s, a).Some? && Actor(a) != Some(h)
    ensures LeftAlone(h, s, HandlerStep(s, a).value)
  {}

  /** A step that is not this delivery's leaves it where it is. */
  lemma OtherActor(s: State, a: Action, h: nat)
    requires Step(s, a).Some? && Actor(a) != Some(h)
    ensures LeftAlone(h, s, Step(s, a).value)
  {
    if CallerStep(s, a).Some? {
      CallerLeavesAlone(s, a, h);
    } else {
      HandlerLeavesAlone(s, a, h);
    }
  }

  lemma StoreFixed(s: State, a: Action)
    requires Step(s, a).Some?
    ensures Step(s, a).value.store == s.store
  {}

  lemma HandlerKnown(run: seq<State>, h: nat)
    requires IsRun(run) && h in run[|run| - 1].handlers
    ensures run[|run| - 1].handlers[h].job in run[|run| - 1].docs
  {
    RunKeeps(run, |run| - 1);
    assert HandlerOk(run[|run| - 1], h, run[|run| - 1].handlers[h]);
  }

  lemma TaskIsKnown(run: seq<State>, job: string)
    requires IsRun(run) && job in run[|run| - 1].tasks
    ensures job in run[|run| - 1].docs
  {
    RunKeeps(run, |run| - 1);
  }
}
