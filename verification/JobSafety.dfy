/** What holds of every job in every reachable state. */
module JobSafety {
  import opened JobProtocol
  import opened Jobs
  import opened Wrappers

  // ---------- what a step may do to a record ----------

  /** The delivery that takes the step, if it is a worker step. */
  function Actor(a: Action): Option<nat> {
    match a
    case Submit(_, _) => None
    case CreateRecord(_, _) => None
    case Enqueue(_, _) => None
    case FailQueue(_, _, _, _) => None
    case RequestCancel(_, _) => None
    case Cancel(_, _, _) => None
    case _ => Some(a.h)
  }

  /** A terminal record stays as it is; a running one does not go back. */
  predicate Evolves(r: JobRecord, r': JobRecord) {
    || r' == r
    || (r.status == Queued && r'.status in {Running, Cancelled, Failed})
    || (r.status == Running && r'.status in {Succeeded, Failed})
  }

  /** What everybody but the delivery `actor` may rely on. */
  ghost predicate Respects(s: State, s': State, actor: Option<nat>) {
    && (forall job :: job in s.docs ==> job in s'.docs && Evolves(s.docs[job], s'.docs[job]))
    && (forall job :: job in s'.docs && job !in s.docs ==> s'.docs[job].status == Queued)
    && (forall job :: job in s.claimants ==> ClaimedBy(s', job, s.claimants[job]))
    && (forall job, k: nat :: Some(k) != actor ==> (ClaimedBy(s', job, k) <==> ClaimedBy(s, job, k)))
    && (forall job :: job in s.docs && s.docs[job].status == Running && s'.docs[job].status == Succeeded ==>
          actor.Some? && ClaimedBy(s, job, actor.value))
    && (forall job ::
          Get(s'.executions, job) == Get(s.executions, job) || (actor.Some? && ClaimedBy(s, job, actor.value)))
  }

  lemma HandlerKept(s: State, s': State, actor: Option<nat>, h: nat, x: Handler)
    requires HandlerOk(s, h, x) && Respects(s, s', actor) && Some(h) != actor
    ensures HandlerOk(s', h, x)
  {
    assert ClaimedBy(s', x.job, h) <==> ClaimedBy(s, x.job, h);
    assert Evolves(s.docs[x.job], s'.docs[x.job]);
  }

  lemma CallerKept(s: State, s': State, actor: Option<nat>, x: Caller)
    requires CallerOk(s, x) && Respects(s, s', actor)
    ensures CallerOk(s', x)
  {}

  /** The parts of the invariant that do not mention deliveries or requests. */
  ghost predicate JobsOk(s: State) {
    && (forall job :: job in s.docs ==> RecordOk(s, job))
    && (forall job :: job in s.claimants ==> job in s.docs)
    && (forall job :: job !in s.docs ==> Get(s.writes, job) == 0 && Get(s.executions, job) == 0)
    && s.tasks <= s.docs.Keys
    && s.docs == Replay(Firestore, s.log) == Replay(InMemory, s.log)
  }

  lemma HandlerStepKeeps(s: State, s': State, h: nat)
    requires Inv(s) && JobsOk(s') && Respects(s, s', Some(h))
    requires h in s'.handlers && s'.handlers == s.handlers[h := s'.handlers[h]] && s'.callers == s.callers
    requires || s'.claimants.Keys <= s.claimants.Keys
             || forall job :: job in s'.claimants ==> job in s.claimants || s'.claimants[job] == h
    requires HandlerOk(s', h, s'.handlers[h])
    ensures Inv(s')
  {
    forall k | k in s'.handlers
      ensures HandlerOk(s', k, s'.handlers[k])
    {
      if k != h {
        HandlerKept(s, s', Some(h), k, s.handlers[k]);
      }
    }
    forall c | c in s'.callers
      ensures CallerOk(s', s'.callers[c])
    {
      CallerKept(s, s', Some(h), s.callers[c]);
    }
    forall job | job in s'.claimants
      ensures s'.claimants[job] in s'.handlers
    {
      if s'.claimants[job] != h {
        assert ClaimedBy(s', job, s'.claimants[job]);
        assert ClaimedBy(s, job, s'.claimants[job]);
      }
    }
  }

  lemma CallerStepKeeps(s: State, s': State, c: nat)
    requires Inv(s) && JobsOk(s') && Respects(s, s', None)
    requires c in s'.callers && s'.callers == s.callers[c := s'.callers[c]] && s'.handlers == s.handlers
    requires s'.claimants == s.claimants && CallerOk(s', s'.callers[c])
    ensures Inv(s')
  {
    forall k | k in s'.handlers
      ensures HandlerOk(s', k, s'.handlers[k])
    {
      HandlerKept(s, s', None, k, s.handlers[k]);
    }
    forall d | d in s'.callers
      ensures CallerOk(s', s'.callers[d])
    {
      if d != c {
        CallerKept(s, s', None, s.callers[d]);
      }
    }
  }

  // ---------- store calls ----------

  lemma LogGrows(s: State, c: Call)
    requires s.docs == Replay(Firestore, s.log) == Replay(InMemory, s.log) && !SucceedsQueued(s.docs, c)
    ensures var s' := Perform(s, c); s'.docs == Replay(Firestore, s'.log) == Replay(InMemory, s'.log)
  {
    StoresSimulate(s.docs, c);
    assert (s.log + [c])[..|s.log|] == s.log;
  }

  /** Both replays of the log give the documents. */
  predicate LogOk(s: State) { s.docs == Replay(Firestore, s.log) == Replay(InMemory, s.log) }

  /** One document moves on, and nothing is recorded of any other job. */
  ghost predicate MovesOnly(s: State, s': State, id: string, actor: Option<nat>) {
    && id in s.docs && id in s'.docs && s'.docs == s.docs[id := s'.docs[id]]
    && s'.tasks == s.tasks && s'.executions == s.executions
    && (s'.claimants == s.claimants ||
        (actor.Some? && id !in s.claimants && s'.claimants == s.claimants[id := actor.value]))
    && forall job :: job != id ==> Get(s'.writes, job) == Get(s.writes, job)
  }

  lemma MovedJobsOk(s: State, s': State, id: string, actor: Option<nat>)
    requires JobsOk(s) && MovesOnly(s, s', id, actor) && RecordOk(s', id) && LogOk(s')
    ensures JobsOk(s')
  {
    forall job | job in s'.docs && job != id
      ensures RecordOk(s', job)
    {
      assert RecordOk(s, job);
    }
  }

  lemma MovedRespects(s: State, s': State, id: string, actor: Option<nat>)
    requires MovesOnly(s, s', id, actor) && Evolves(s.docs[id], s'.docs[id])
    requires s.docs[id].status == Running && s'.docs[id].status == Succeeded ==>
              actor.Some? && ClaimedBy(s, id, actor.value)
    ensures Respects(s, s', actor)
  {}

  /** No document changes. */
  lemma NoRecordMoves(s: State, s': State, actor: Option<nat>)
    requires JobsOk(s) && s'.docs == s.docs && LogOk(s') && s'.tasks <= s.docs.Keys
    requires s'.executions == s.executions && s'.claimants == s.claimants && s'.writes == s.writes
    ensures JobsOk(s') && Respects(s, s', actor)
  {
    forall job | job in s'.docs
      ensures RecordOk(s', job)
    {
      assert RecordOk(s, job);
    }
  }

  lemma RecordMoves(s: State, c: Call)
    requires JobsOk(s) && !c.Create? && !c.Claim? && !SucceedsQueued(s.docs, c) && Perform(s, c).docs != s.docs
    ensures c.id in s.docs && RecordOk(Perform(s, c), c.id)
  {
    assert RecordOk(s, c.id);
  }

  lemma PerformMoves(s: State, c: Call, actor: Option<nat>)
    requires JobsOk(s) && !c.Create? && !c.Claim? && !SucceedsQueued(s.docs, c)
    requires c.Succeed? && c.id in s.docs && s.docs[c.id].status == Running ==>
              actor.Some? && ClaimedBy(s, c.id, actor.value)
    ensures JobsOk(Perform(s, c)) && Respects(s, Perform(s, c), actor)
  {
    LogGrows(s, c);
    var s' := Perform(s, c);
    if s'.docs == s.docs {
      NoRecordMoves(s, s', actor);
    } else {
      RecordMoves(s, c);
      MovedJobsOk(s, s', c.id, actor);
      MovedRespects(s, s', c.id, actor);
    }
  }

  /** Failing and cancelling keep every record truthful. */
  lemma FailPerformed(s: State, c: Call)
    requires JobsOk(s) && (c.Fail? || c.CancelIfQueued?)
    ensures JobsOk(Perform(s, c)) && Respects(s, Perform(s, c), None)
    ensures c.id in s.docs ==> c.id in Perform(s, c).docs && Perform(s, c).docs[c.id].status != Queued
    ensures c.Fail? && c.id in s.docs ==> Perform(s, c).docs[c.id].status.Terminal()
  {
    PerformMoves(s, c, None);
  }

  /** A new queued document appears. */
  ghost predicate Appears(s: State, s': State, id: string) {
    && id !in s.docs && s' == s.(docs := s'.docs, log := s'.log)
    && id in s'.docs && s'.docs == s.docs[id := s'.docs[id]] && IsNew(s'.docs[id])
  }

  lemma AppearedJobsOk(s: State, s': State, id: string)
    requires JobsOk(s) && Appears(s, s', id) && LogOk(s')
    ensures JobsOk(s')
  {
    forall job | job in s'.docs
      ensures RecordOk(s', job)
    {
      if job in s.docs {
        assert RecordOk(s, job);
      }
    }
  }

  lemma AppearedRespects(s: State, s': State, id: string)
    requires Appears(s, s', id)
    ensures Respects(s, s', None)
  {}

  lemma CreatePerformed(s: State, c: Call)
    requires JobsOk(s) && c.Create? && IsNew(c.record)
    ensures JobsOk(Perform(s, c)) && Respects(s, Perform(s, c), None)
    ensures ReplyTo(s, c) == Done ==> c.Id() in Perform(s, c).docs
  {
    LogGrows(s, c);
    if c.Id() in s.docs {
      NoRecordMoves(s, Perform(s, c), None);
    } else {
      AppearedJobsOk(s, Perform(s, c), c.Id());
      AppearedRespects(s, Perform(s, c), c.Id());
    }
  }

  /** A claim that wins makes its delivery the claimant. */
  lemma ClaimPerformed(s: State, c: Call, h: nat)
    requires JobsOk(s) && c.Claim? && Wins(s, c.id)
    ensures var s' := Perform(s, c).(claimants := s.claimants[c.id := h]);
      JobsOk(s') && Respects(s, s', Some(h)) && ClaimedBy(s', c.id, h) && s'.docs[c.id].status == Running
    ensures Get(s.executions, c.id) == 0
  {
    LogGrows(s, c);
    assert RecordOk(s, c.id);
    var s' := Perform(s, c).(claimants := s.claimants[c.id := h]);
    assert s'.docs[c.id] == Claimed(s.docs[c.id], c.now) != s.docs[c.id];
    assert RecordOk(s', c.id);
    MovedJobsOk(s, s', c.id, Some(h));
    MovedRespects(s, s', c.id, Some(h));
  }

  lemma ClaimLost(s: State, c: Call, actor: Option<nat>)
    requires JobsOk(s) && c.Claim? && !Wins(s, c.id)
    ensures JobsOk(Perform(s, c)) && Respects(s, Perform(s, c), actor) && Perform(s, c).docs == s.docs
  {
    LogGrows(s, c);
    NoRecordMoves(s, Perform(s, c), actor);
  }

  lemma SucceedPerformed(s: State, c: Call, h: nat)
    requires JobsOk(s) && c.Succeed? && c.id in s.docs && s.docs[c.id].status != Queued && ClaimedBy(s, c.id, h)
    ensures JobsOk(Perform(s, c)) && Respects(s, Perform(s, c), Some(h))
    ensures Perform(s, c).docs[c.id].status.Terminal()
  {
    PerformMoves(s, c, Some(h));
  }

  /** The job parts of the invariant and what others rely on, whoever's position also changes. */
  lemma PositionsIrrelevant(s: State, t: State, t': State, actor: Option<nat>)
    requires JobsOk(t) && Respects(s, t, actor) && t' == t.(handlers := t'.handlers, callers := t'.callers)
    ensures JobsOk(t') && Respects(s, t', actor)
  {
    NoRecordMoves(t, t', actor);
  }

  // ---------- API steps ----------

  lemma FailOrKeep(s: State, c: Call, o: Outcome)
    requires JobsOk(s) && (c.Fail? || c.CancelIfQueued?)
    ensures JobsOk(PerformIf(s, c, o)) && Respects(s, PerformIf(s, c, o), None)
  {
    FailPerformed(s, c);
    NoRecordMoves(s, s, None);
  }

  /** A request moves on and nothing else happens. */
  lemma CallerMoves(s: State, c: nat, x: Caller)
    requires Inv(s) && CallerOk(s, x)
    ensures Inv(MoveCaller(s, c, x)) && Respects(s, MoveCaller(s, c, x), None)
  {
    NoRecordMoves(s, MoveCaller(s, c, x), None);
    CallerStepKeeps(s, MoveCaller(s, c, x), c);
  }

  /** A delivery moves on and nothing else happens. */
  lemma HandlerMoves(s: State, h: nat, x: Handler)
    requires Inv(s) && HandlerOk(s, h, x)
    ensures Inv(Move(s, h, x)) && Respects(s, Move(s, h, x), Some(h))
  {
    NoRecordMoves(s, Move(s, h, x), Some(h));
    HandlerStepKeeps(s, Move(s, h, x), h);
  }

  /** A request calls the store and moves on. */
  lemma CallerPerforms(s: State, call: Call, o: Outcome, c: nat, x: Caller)
    requires Inv(s) && CallerOk(MoveCaller(PerformIf(s, call, o), c, x), x)
    requires JobsOk(PerformIf(s, call, o)) && Respects(s, PerformIf(s, call, o), None)
    ensures Inv(MoveCaller(PerformIf(s, call, o), c, x)) && Respects(s, MoveCaller(PerformIf(s, call, o), c, x), None)
  {
    CallerMovesFrom(s, PerformIf(s, call, o), c, x);
  }

  lemma CallerMovesFrom(s: State, t: State, c: nat, x: Caller)
    requires Inv(s) && JobsOk(t) && Respects(s, t, None) && CallerOk(MoveCaller(t, c, x), x)
    requires t.handlers == s.handlers && t.callers == s.callers && t.claimants == s.claimants
    ensures Inv(MoveCaller(t, c, x)) && Respects(s, MoveCaller(t, c, x), None)
  {
    PositionsIrrelevant(s, t, MoveCaller(t, c, x), None);
    CallerStepKeeps(s, MoveCaller(t, c, x), c);
  }

  lemma RequestKeeps(s: State, a: Action)
    requires Inv(s) && CallerStep(s, a).Some? && (a.Submit? || a.RequestCancel?)
    ensures Inv(CallerStep(s, a).value) && Respects(s, CallerStep(s, a).value, None)
  {
    CallerMoves(s, a.c, if a.Submit? then Creating(a.record) else Cancelling(a.job, s.docs[a.job]));
  }

  lemma TaskAdded(s: State, job: string)
    requires Inv(s) && job in s.docs
    ensures Inv(s.(tasks := s.tasks + {job})) && Respects(s, s.(tasks := s.tasks + {job}), None)
  {
    var s' := s.(tasks := s.tasks + {job});
    NoRecordMoves(s, s', None);
    forall h | h in s'.handlers
      ensures HandlerOk(s', h, s'.handlers[h])
    {
      HandlerKept(s, s', None, h, s.handlers[h]);
    }
    forall c | c in s'.callers
      ensures CallerOk(s', s'.callers[c])
    {
      CallerKept(s, s', None, s.callers[c]);
    }
  }

  lemma EnqueueKeeps(s: State, a: Action)
    requires Inv(s) && CallerStep(s, a).Some? && a.Enqueue?
    ensures Inv(CallerStep(s, a).value) && Respects(s, CallerStep(s, a).value, None)
  {
    var job := s.callers[a.c].job;
    assert CallerOk(s, s.callers[a.c]);
    TaskAdded(s, job);
    CallerMoves(if TookEffect(a.outcome) then s.(tasks := s.tasks + {job}) else s, a.c,
                if a.outcome == Returns then Over else QueueFailed(job));
  }

  lemma FailQueueKeeps(s: State, a: Action)
    requires Inv(s) && CallerStep(s, a).Some? && a.FailQueue?
    ensures Inv(CallerStep(s, a).value) && Respects(s, CallerStep(s, a).value, None)
  {
    var c := Fail(s.callers[a.c].job, a.now, "QUEUE_UNAVAILABLE", a.message);
    FailOrKeep(s, c, a.outcome);
    CallerPerforms(s, c, a.outcome, a.c, Over);
  }

  lemma CreateKeeps(s: State, a: Action)
    requires Inv(s) && CallerStep(s, a).Some? && a.CreateRecord?
    ensures Inv(CallerStep(s, a).value) && Respects(s, CallerStep(s, a).value, None)
  {
    var s', c := CallerStep(s, a).value, Create(s.callers[a.c].record);
    assert CallerOk(s, s.callers[a.c]);
    CreatePerformed(s, c);
    NoRecordMoves(s, s, None);
    CallerPerforms(s, c, a.outcome, a.c, s'.callers[a.c]);
  }

  /** The answer to a cancel request is the record it left, or the record seen before. */
  lemma CancelAnswerOk(s: State, a: Action)
    requires Inv(s) && CallerStep(s, a).Some? && a.Cancel?
    ensures CallerOk(CallerStep(s, a).value, CallerStep(s, a).value.callers[a.c])
  {
    assert CallerOk(s, s.callers[a.c]);
    CancelReply(s, CancelIfQueued(s.callers[a.c].job, a.now));
  }

  lemma CancelReply(s: State, c: Call)
    requires c.CancelIfQueued? && c.id in s.docs
    ensures c.id in Perform(s, c).docs
    ensures ReplyTo(s, c).Record? ==> Perform(s, c).docs[c.id] == ReplyTo(s, c).record
    ensures !ReplyTo(s, c).Record? ==> Perform(s, c).docs == s.docs
  {}

  lemma CancelCalls(s: State, a: Action)
    requires Inv(s) && CallerStep(s, a).Some? && a.Cancel?
    ensures var s', call := CallerStep(s, a).value, CancelIfQueued(s.callers[a.c].job, a.now);
      a.c in s'.callers && s' == MoveCaller(PerformIf(s, call, a.outcome), a.c, s'.callers[a.c])
  {}

  lemma CancelKeeps(s: State, a: Action)
    requires Inv(s) && CallerStep(s, a).Some? && a.Cancel?
    ensures Inv(CallerStep(s, a).value) && Respects(s, CallerStep(s, a).value, None)
  {
    var s', c := CallerStep(s, a).value, CancelIfQueued(s.callers[a.c].job, a.now);
    FailOrKeep(s, c, a.outcome);
    CancelAnswerOk(s, a);
    CancelCalls(s, a);
    CallerPerforms(s, c, a.outcome, a.c, s'.callers[a.c]);
  }

  // ---------- worker steps ----------

  /** After a change of the records, the delivery that made it moves on. */
  lemma HandlerMovesAfter(s: State, t: State, h: nat, x: Handler)
    requires Inv(s) && JobsOk(t) && Respects(s, t, Some(h))
    requires t.handlers == s.handlers && t.callers == s.callers && t.claimants == s.claimants && HandlerOk(t, h, x)
    ensures Inv(Move(t, h, x)) && Respects(s, Move(t, h, x), Some(h))
  {
    PositionsIrrelevant(s, t, Move(t, h, x), Some(h));
    HandlerStepKeeps(s, Move(t, h, x), h);
  }

  lemma DeliverKeeps(s: State, a: Action)
    requires Inv(s) && HandlerStep(s, a).Some? && a.Deliver?
    ensures Inv(HandlerStep(s, a).value) && Respects(s, HandlerStep(s, a).value, Some(a.h))
  {
    HandlerMoves(s, a.h, Delivered(a.job));
  }

  lemma QuietStepKeeps(s: State, a: Action)
    requires Inv(s) && HandlerStep(s, a).Some? && (a.Fetch? || a.Validate? || a.Crash?)
    ensures Inv(HandlerStep(s, a).value) && Respects(s, HandlerStep(s, a).value, Some(a.h))
  {
    assert HandlerOk(s, a.h, s.handlers[a.h]);
    HandlerMoves(s, a.h, HandlerStep(s, a).value.handlers[a.h]);
  }

  lemma FailedHandlerOk(s: State, h: nat, c: Call, o: Outcome)
    requires JobsOk(s) && c.Fail? && c.id in s.docs
    ensures HandlerOk(PerformIf(s, c, o), h,
                      if o == Returns && !ReplyTo(s, c).Raises? then Returned(c.id) else Broken(c.id))
  {
    FailPerformed(s, c);
  }

  lemma FailKeeps(s: State, h: nat, c: Call, o: Outcome, s': State)
    requires Inv(s) && h in s.handlers && c.Fail? && c.id == s.handlers[h].job
    requires s' == Move(PerformIf(s, c, o), h,
                        if o == Returns && !ReplyTo(s, c).Raises? then Returned(c.id) else Broken(c.id))
    ensures Inv(s') && Respects(s, s', Some(h))
  {
    assert HandlerOk(s, h, s.handlers[h]);
    FailedHandlerOk(s, h, c, o);
    FailOrKeep(s, c, o);
    HandlerMovesAfter(s, PerformIf(s, c, o), h, s'.handlers[h]);
  }

  lemma ClaimTaken(s: State, h: nat, c: Call, o: Outcome, s': State)
    requires Inv(s) && h in s.handlers && c.Claim? && s.handlers[h] == Validated(c.id) && TookEffect(o) && Wins(s, c.id)
    requires s' == Move(Perform(s, c).(claimants := s.claimants[c.id := h]), h,
                        if o == Returns then Executing(c.id) else Failing(c.id))
    ensures Inv(s') && Respects(s, s', Some(h))
  {
    ClaimPerformed(s, c, h);
    PositionsIrrelevant(s, Perform(s, c).(claimants := s.claimants[c.id := h]), s', Some(h));
    HandlerStepKeeps(s, s', h);
  }

  lemma ClaimRefused(s: State, h: nat, c: Call, o: Outcome, s': State)
    requires Inv(s) && h in s.handlers && c.Claim? && s.handlers[h] == Validated(c.id) &&
              !(TookEffect(o) && Wins(s, c.id))
    requires s' == Move(PerformIf(s, c, o), h, if o == Returns then Returned(c.id) else Failing(c.id))
    ensures Inv(s') && Respects(s, s', Some(h))
  {
    assert HandlerOk(s, h, s.handlers[h]);
    if TookEffect(o) {
      ClaimLost(s, c, Some(h));
      PositionsIrrelevant(s, Perform(s, c), s', Some(h));
    } else {
      NoRecordMoves(s, s', Some(h));
    }
    HandlerStepKeeps(s, s', h);
  }

  lemma ClaimKeeps(s: State, a: Action)
    requires Inv(s) && HandlerStep(s, a).Some? && a.ClaimJob?
    ensures Inv(HandlerStep(s, a).value) && Respects(s, HandlerStep(s, a).value, Some(a.h))
  {
    var c := Claim(s.handlers[a.h].job, a.now);
    if TookEffect(a.outcome) && Wins(s, c.id) {
      ClaimTaken(s, a.h, c, a.outcome, HandlerStep(s, a).value);
    } else {
      ClaimRefused(s, a.h, c, a.outcome, HandlerStep(s, a).value);
    }
  }

  /** Only the execution count of a job changes. */
  ghost predicate Counts(s: State, h: nat, job: string, s': State) {
    && job in s.docs && ClaimedBy(s, job, h) && Get(s.executions, job) == 0
    && s' == s.(executions := s.executions[job := 1], handlers := s'.handlers)
  }

  lemma CountedJobsOk(s: State, h: nat, job: string, s': State)
    requires JobsOk(s) && Counts(s, h, job, s')
    ensures JobsOk(s')
  {
    forall j | j in s'.docs
      ensures RecordOk(s', j)
    {
      assert RecordOk(s, j);
    }
  }

  lemma CountedRespects(s: State, h: nat, job: string, s': State)
    requires Counts(s, h, job, s')
    ensures Respects(s, s', Some(h))
  {}

  lemma CountedKeeps(s: State, h: nat, x: Handler, s': State)
    requires Inv(s) && h in s.handlers && Counts(s, h, x.job, s') && HandlerOk(s', h, x)
    requires s'.handlers == s.handlers[h := x] && s'.callers == s.callers
    ensures Inv(s') && Respects(s, s', Some(h))
  {
    CountedJobsOk(s, h, x.job, s');
    CountedRespects(s, h, x.job, s');
    HandlerStepKeeps(s, s', h);
  }

  lemma ExecuteKeeps(s: State, a: Action)
    requires Inv(s) && HandlerStep(s, a).Some? && a.Execute?
    ensures Inv(HandlerStep(s, a).value) && Respects(s, HandlerStep(s, a).value, Some(a.h))
  {
    ExecuteCounts(s, a);
    var s' := HandlerStep(s, a).value;
    CountedKeeps(s, a.h, s'.handlers[a.h], s');
  }

  lemma ExecuteCounts(s: State, a: Action)
    requires HandlerStep(s, a).Some? && a.Execute? && a.h in s.handlers && HandlerOk(s, a.h, s.handlers[a.h])
    requires forall job :: job !in s.docs ==> Get(s.executions, job) == 0
    ensures var s' := HandlerStep(s, a).value;
      && a.h in s'.handlers && s'.handlers == s.handlers[a.h := s'.handlers[a.h]] && s'.callers == s.callers
      && Counts(s, a.h, s'.handlers[a.h].job, s') && HandlerOk(s', a.h, s'.handlers[a.h])
  {}

  lemma ReportedHandlerOk(s: State, h: nat, c: Call, o: Outcome)
    requires JobsOk(s) && HandlerOk(s, h, Reporting(c.Id(), c))
    ensures HandlerOk(PerformIf(s, c, o), h,
                      if o == Returns && !ReplyTo(s, c).Raises? then Returned(c.id) else Failing(c.id))
    ensures JobsOk(PerformIf(s, c, o)) && Respects(s, PerformIf(s, c, o), Some(h))
  {
    SucceedPerformed(s, c, h);
    NoRecordMoves(s, s, Some(h));
  }

  lemma ReportKeeps(s: State, h: nat, c: Call, o: Outcome, s': State)
    requires Inv(s) && h in s.handlers && c.Succeed? && s.handlers[h] == Reporting(c.id, c)
    requires s' == Move(PerformIf(s, c, o), h,
                        if o == Returns && !ReplyTo(s, c).Raises? then Returned(c.id) else Failing(c.id))
    ensures Inv(s') && Respects(s, s', Some(h))
  {
    assert HandlerOk(s, h, s.handlers[h]);
    ReportedHandlerOk(s, h, c, o);
    HandlerMovesAfter(s, PerformIf(s, c, o), h, s'.handlers[h]);
  }

  lemma CallerStepsKeep(s: State, a: Action)
    requires Inv(s) && CallerStep(s, a).Some?
    ensures Inv(CallerStep(s, a).value) && Respects(s, CallerStep(s, a).value, None) && Actor(a) == None
  {
    match a {
      case CreateRecord(_, _) => CreateKeeps(s, a);
      case Cancel(_, _, _) => CancelKeeps(s, a);
      case Submit(_, _) => RequestKeeps(s, a);
      case RequestCancel(_, _) => RequestKeeps(s, a);
      case Enqueue(_, _) => EnqueueKeeps(s, a);
      case FailQueue(_, _, _, _) => FailQueueKeeps(s, a);
    }
  }

  lemma HandlerStepsKeep(s: State, a: Action)
    requires Inv(s) && HandlerStep(s, a).Some?
    ensures Inv(HandlerStep(s, a).value) && Respects(s, HandlerStep(s, a).value, Actor(a))
  {
    match a {
      case Reject(h, now, o) =>
        FailKeeps(s, h, Fail(s.handlers[h].job, now, "POLICY_REJECTED", "Job policy is no longer valid"), o,
                  HandlerStep(s, a).value);
      case FailExecution(h, now, o) =>
        FailKeeps(s, h, Fail(s.handlers[h].job, now, "EXECUTION_FAILED",
                          ExecutionMessage(s.handlers[h].job)), o,
                  HandlerStep(s, a).value);
      case ClaimJob(_, _, _) => ClaimKeeps(s, a);
      case Execute(_, _) => ExecuteKeeps(s, a);
      case Report(h, o) =>
        assert HandlerOk(s, h, s.handlers[h]);
        ReportKeeps(s, h, s.handlers[h].success, o, HandlerStep(s, a).value);
      case Deliver(_, _) => DeliverKeeps(s, a);
      case Fetch(_, _) => QuietStepKeeps(s, a);
      case Validate(_, _) => QuietStepKeeps(s, a);
      case Crash(_) => QuietStepKeeps(s, a);
    }
  }

  lemma StepKeeps(s: State, a: Action, s': State)
    requires Inv(s) && Step(s, a) == Some(s')
    ensures Inv(s') && Respects(s, s', Actor(a))
  {
    if CallerStep(s, a).Some? {
      CallerStepsKeep(s, a);
    } else {
      HandlerStepsKeep(s, a);
    }
  }

  lemma {:induction false} RunKeeps(run: seq<State>, i: nat)
    requires IsRun(run) && i < |run|
    ensures Inv(run[i])
  {
    if i > 0 {
      RunKeeps(run, i - 1);
      assert MovesAt(run, i - 1);
      var a :| Step(run[i - 1], a) == Some(run[i]);
      StepKeeps(run[i - 1], a, run[i]);
    }
  }

  // ---------- the properties ----------

  /** One step of a run: terminal jobs stay, claimants stay. */
  lemma NextKeepsHistory(run: seq<State>, i: nat, job: string)
    requires IsRun(run) && i + 1 < |run|
    ensures job in run[i].docs && run[i].docs[job].status.Terminal() ==>
              job in run[i + 1].docs && run[i + 1].docs[job] == run[i].docs[job]
    ensures job in run[i].claimants ==> ClaimedBy(run[i + 1], job, run[i].claimants[job])
  {
    RunKeeps(run, i);
    assert MovesAt(run, i);
    var a :| Step(run[i], a) == Some(run[i + 1]);
    StepKeeps(run[i], a, run[i + 1]);
    RespectsHistory(run[i], run[i + 1], Actor(a), job);
  }

  lemma RespectsHistory(s: State, s': State, actor: Option<nat>, job: string)
    requires Respects(s, s', actor)
    ensures job in s.docs && s.docs[job].status.Terminal() ==> job in s'.docs && s'.docs[job] == s.docs[job]
    ensures job in s.claimants ==> ClaimedBy(s', job, s.claimants[job])
  {
    if job in s.docs {
      assert Evolves(s.docs[job], s'.docs[job]);
    }
    if job in s.claimants {
      assert ClaimedBy(s', job, s.claimants[job]);
    }
  }

  /** A terminal job never changes again, in any field. */
  lemma {:induction false} TerminalForever(run: seq<State>, i: nat, j: nat, job: string)
    requires IsRun(run) && i <= j < |run| && job in run[i].docs && run[i].docs[job].status.Terminal()
    ensures job in run[j].docs && run[j].docs[job] == run[i].docs[job]
    decreases j - i
  {
    if i < j {
      TerminalForever(run, i, j - 1, job);
      NextKeepsHistory(run, j - 1, job);
    }
  }

  /**
   * Every record is truthful: a report iff succeeded, an error code iff failed, a finish time iff terminal, a
   * start time iff some delivery claimed it; at most one execution, at most two writes after creation.
   */
  lemma RecordsTruthful(run: seq<State>, i: nat, job: string)
    requires IsRun(run) && i < |run| && job in run[i].docs
    ensures var s := run[i]; var r := s.docs[job];
      && (r.artifact.Some? <==> r.status == Succeeded)
      && (r.errorCode.Some? <==> r.status == Failed)
      && (r.finished.Some? <==> r.status.Terminal())
      && (r.started.Some? <==> job in s.claimants)
      && Get(s.executions, job) <= 1 && (Get(s.executions, job) == 1 ==> r.started.Some?)
      && Get(s.writes, job) <= 2
  {
    RunKeeps(run, i);
    assert RecordOk(run[i], job);
  }

  /** Two deliveries never execute the same job. */
  lemma OneExecutor(run: seq<State>, i: nat, g: nat, h: nat)
    requires IsRun(run) && i < |run| && g in run[i].handlers && h in run[i].handlers
    requires run[i].handlers[g].Executing? || run[i].handlers[g].Reporting?
    requires run[i].handlers[h].Executing? || run[i].handlers[h].Reporting?
    requires run[i].handlers[g].job == run[i].handlers[h].job
    ensures g == h
  {
    RunKeeps(run, i);
    assert HandlerOk(run[i], g, run[i].handlers[g]) && HandlerOk(run[i], h, run[i].handlers[h]);
  }

  /** A job succeeds only from RUNNING, and only in a step of the delivery that claimed it. */
  lemma SucceedsByClaimant(run: seq<State>, i: nat, a: Action, job: string)
    requires IsRun(run) && i + 1 < |run| && Step(run[i], a) == Some(run[i + 1])
    requires job in run[i + 1].docs && run[i + 1].docs[job].status == Succeeded
    requires job in run[i].docs ==> run[i].docs[job].status != Succeeded
    ensures job in run[i].docs && run[i].docs[job].status == Running
    ensures Actor(a).Some? && ClaimedBy(run[i], job, Actor(a).value)
  {
    RunKeeps(run, i);
    StepKeeps(run[i], a, run[i + 1]);
    assert job in run[i].docs ==> Evolves(run[i].docs[job], run[i + 1].docs[job]);
  }

  /** A delivery that returned leaves its job not queued, and finished if this delivery claimed it. */
  lemma ReturnedMeansHandled(run: seq<State>, i: nat, h: nat)
    requires IsRun(run) && i < |run| && h in run[i].handlers && run[i].handlers[h].Returned?
    ensures var job := run[i].handlers[h].job;
      && job in run[i].docs && run[i].docs[job].status != Queued
      && (ClaimedBy(run[i], job, h) ==> run[i].docs[job].status.Terminal())
  {
    RunKeeps(run, i);
    assert HandlerOk(run[i], h, run[i].handlers[h]);
  }

  /** Once a cancel request is answered CANCELLED, the job stays so and no delivery ever claims it, before or after. */
  lemma CancelledForever(run: seq<State>, i: nat, k: nat, c: nat)
    requires IsRun(run) && i < |run| && k < |run|
    requires c in run[i].callers && run[i].callers[c].CancelAnswered? && run[i].callers[c].answer.status == Cancelled
    ensures var x := run[i].callers[c];
      && x.job !in run[k].claimants
      && (i <= k ==> x.job in run[k].docs && run[k].docs[x.job] == x.answer)
  {
    var x := run[i].callers[c];
    RunKeeps(run, i);
    assert CallerOk(run[i], x) && RecordOk(run[i], x.job);
    if i <= k {
      RunKeeps(run, k);
      TerminalForever(run, i, k, x.job);
      assert RecordOk(run[k], x.job);
    } else if x.job in run[k].claimants {
      ClaimantsRemain(run, k, i, x.job);
    }
  }

  /** At most one delivery ever claims a job: the claimant of one state is that of every later one. */
  lemma {:induction false} ClaimantsRemain(run: seq<State>, i: nat, j: nat, job: string)
    requires IsRun(run) && i <= j < |run| && job in run[i].claimants
    ensures ClaimedBy(run[j], job, run[i].claimants[job])
    decreases j - i
  {
    if i < j {
      ClaimantsRemain(run, i, j - 1, job);
      NextKeepsHistory(run, j - 1, job);
    }
  }

  /** On every run, whichever store answers the calls, both stores hold the same records after them. */
  lemma StoresAgree(run: seq<State>, i: nat)
    requires IsRun(run) && i < |run|
    ensures Replay(InMemory, run[i].log) == Replay(Firestore, run[i].log) == run[i].docs
  {
    RunKeeps(run, i);
  }

  // ---------- a rejection does not mean that nothing ran ----------

  lemma ExtendRun(run: seq<State>, a: Action) returns (longer: seq<State>)
    requires IsRun(run) && Step(run[|run| - 1], a).Some?
    ensures IsRun(longer) && run <= longer && longer[|longer| - 1] == Step(run[|run| - 1], a).value
  {
    var s, s' := run[|run| - 1], Step(run[|run| - 1], a).value;
    longer := run + [s'];
    assert Next(s, s');
    forall i
      ensures MovesAt(longer, i)
    {
      assert MovesAt(run, i);
    }
  }

  /** A new job is created and its task enqueued. */
  lemma Enqueued(r: JobRecord) returns (run: seq<State>)
    requires IsNew(r)
    ensures IsRun(run)
    ensures var s := run[|run| - 1];
      s.store == Firestore && s.handlers == map[] && s.docs == map[r.jobId := r] && s.executions == map[] &&
          s.tasks == {r.jobId}
  {
    var s0 := State(Firestore, map[], {}, map[], map[], map[], map[], map[], []);
    assert MovesAt([s0], 0);
    run := [s0];
    assert forall i :: MovesAt(run, i);
    run := ExtendRun(run, Submit(0, r));
    run := ExtendRun(run, CreateRecord(0, Returns));
    run := ExtendRun(run, Enqueue(0, Returns));
  }

  /** The task is delivered twice, and both deliveries find the job queued. */
  lemma DeliveredTwice(r: JobRecord) returns (run: seq<State>)
    requires IsNew(r)
    ensures IsRun(run)
    ensures var s := run[|run| - 1];
      && s.store == Firestore && s.handlers == map[0 := Fetched(r.jobId), 1 := Fetched(r.jobId)]
      && s.docs == map[r.jobId := r] && s.executions == map[]
  {
    run := Enqueued(r);
    run := ExtendRun(run, Deliver(0, r.jobId));
    run := ExtendRun(run, Deliver(1, r.jobId));
    run := ExtendRun(run, Fetch(0, true));
    run := ExtendRun(run, Fetch(1, true));
  }

  /** Then the policy changes: one delivery passes the check, the other is about to reject the job. */
  lemma ValidatedAndRejecting(r: JobRecord) returns (run: seq<State>)
    requires IsNew(r)
    ensures IsRun(run)
    ensures var s := run[|run| - 1];
      && s.store == Firestore && s.handlers == map[0 := Validated(r.jobId), 1 := Rejecting(r.jobId)]
      && s.docs == map[r.jobId := r] && s.executions == map[]
  {
    run := DeliveredTwice(r);
    run := ExtendRun(run, Validate(0, true));
    run := ExtendRun(run, Validate(1, false));
  }

  /** The first then runs the job. */
  lemma RunningAndRejecting(r: JobRecord) returns (run: seq<State>)
    requires IsNew(r)
    ensures IsRun(run)
    ensures var s := run[|run| - 1];
      && 1 in s.handlers && s.handlers[1] == Rejecting(r.jobId)
      && s.docs == map[r.jobId := Claimed(r, 1)] && Get(s.executions, r.jobId) == 1
  {
    run := ValidatedAndRejecting(r);
    run := ExtendRun(run, ClaimJob(0, 1, Returns));
    run := ExtendRun(run, Execute(0, None));
  }

  /**
   * A job can be FAILED with POLICY_REJECTED although it was executed: the second delivery fails the job that
   * the first is running. The start time is what tells.
   */
  lemma RejectedThoughExecuted(r: JobRecord) returns (run: seq<State>)
    requires IsNew(r)
    ensures IsRun(run)
    ensures var s := run[|run| - 1];
      && r.jobId in s.docs && s.docs[r.jobId].status == Failed && s.docs[r.jobId].errorCode == Some("POLICY_REJECTED")
      && Get(s.executions, r.jobId) == 1 && s.docs[r.jobId].started.Some?
  {
    run := RunningAndRejecting(r);
    run := ExtendRun(run, Reject(1, 2, Returns));
  }

  /** A failed job was claimed by a delivery exactly when its record has a start time, whatever its error code. */
  lemma FailedWithoutStartNeverRan(run: seq<State>, i: nat, j: nat, job: string)
    requires IsRun(run) && i <= j < |run| && job in run[i].docs && run[i].docs[job].status == Failed
    ensures run[i].docs[job].started.None? <==> job !in run[j].claimants
    ensures run[i].docs[job].started.None? ==> Get(run[j].executions, job) == 0
  {
    RunKeeps(run, i);
    RunKeeps(run, j);
    TerminalForever(run, i, j, job);
    assert RecordOk(run[i], job) && RecordOk(run[j], job);
  }
}
