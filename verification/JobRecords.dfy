/** What the fields of a job record say: each value is the one that some call of the run brought. */
module JobRecords {
  import opened JobProtocol
  import opened JobSafety
  import opened Jobs
  import opened Wrappers

  // ---------- fields and calls ----------

  /** The request, its owner and its time of creation. */
  predicate SameRequest(a: JobRecord, b: JobRecord) {
    a.jobId == b.jobId && a.owner == b.owner && a.request == b.request && a.created == b.created
  }

  /** A success brought these values. */
  predicate SuccessFields(r: JobRecord, c: Call)
    requires c.Succeed?
  {
    && r.artifact == Some(c.artifact) && r.cacheRunId == c.cacheRunId
    && r.filesScanned == c.filesScanned && r.matchesFound == Some(c.matchesFound) && r.finished == Some(c.now)
  }

  /** A failure brought this code and message; no more than 1000 characters of the message are kept. */
  predicate FailureFields(r: JobRecord, c: Call)
    requires c.Fail?
  {
    && r.errorCode == Some(c.errorCode) && r.finished == Some(c.now)
    && r.errorMessage.Some? && r.errorMessage.value <= c.errorMessage
    && |r.errorMessage.value| == if |c.errorMessage| <= 1000 then |c.errorMessage| else 1000
  }

  ghost predicate CreatedBy(r: JobRecord, log: seq<Call>) {
    exists c :: c in log && c.Create? && SameRequest(r, c.record)
  }

  ghost predicate StartedBy(r: JobRecord, job: string, log: seq<Call>) {
    r.started.Some? ==> Claim(job, r.started.value) in log
  }

  ghost predicate SucceededBy(r: JobRecord, job: string, log: seq<Call>) {
    if r.status == Succeeded then exists c :: c in log && c.Succeed? && c.id == job && SuccessFields(r, c)
    else r.artifact.None? && r.cacheRunId.None? && r.filesScanned.None? && r.matchesFound.None?
  }

  ghost predicate FailedBy(r: JobRecord, job: string, log: seq<Call>) {
    if r.status == Failed then exists c :: c in log && c.Fail? && c.id == job && FailureFields(r, c)
    else r.errorCode.None? && r.errorMessage.None?
  }

  ghost predicate CancelledBy(r: JobRecord, job: string, log: seq<Call>) {
    r.status == Cancelled ==> r.finished.Some? && CancelIfQueued(job, r.finished.value) in log
  }

  /** Every field of a record comes from a call in the log. */
  ghost predicate Explained(r: JobRecord, job: string, log: seq<Call>) {
    && r.jobId == job && CreatedBy(r, log) && StartedBy(r, job, log)
    && SucceededBy(r, job, log) && FailedBy(r, job, log) && CancelledBy(r, job, log)
  }

  lemma LogGrowsExplained(r: JobRecord, job: string, log: seq<Call>, c: Call)
    requires Explained(r, job, log)
    ensures Explained(r, job, log + [c])
  {
    assert forall x :: x in log ==> x in log + [c];
  }

  // ---------- one call ----------

  lemma NewExplained(r: JobRecord, log: seq<Call>)
    requires IsNew(r)
    ensures Explained(r, r.jobId, log + [Create(r)])
  {
    assert (log + [Create(r)])[|log|] == Create(r);
  }

  lemma ClaimedExplained(r: JobRecord, job: string, log: seq<Call>, now: nat)
    requires Explained(r, job, log) && r.status == Queued
    ensures Explained(Claimed(r, now), job, log + [Claim(job, now)])
  {
    LogGrowsExplained(r, job, log, Claim(job, now));
    assert (log + [Claim(job, now)])[|log|] == Claim(job, now);
  }

  lemma CancelledExplained(r: JobRecord, job: string, log: seq<Call>, now: nat)
    requires Explained(r, job, log) && r.status == Queued
    ensures Explained(CancelledRecord(r, now), job, log + [CancelIfQueued(job, now)])
  {
    LogGrowsExplained(r, job, log, CancelIfQueued(job, now));
    assert (log + [CancelIfQueued(job, now)])[|log|] == CancelIfQueued(job, now);
  }

  lemma SucceededExplained(r: JobRecord, job: string, log: seq<Call>, c: Call)
    requires Explained(r, job, log) && !r.status.Terminal() && c.Succeed? && c.id == job
    ensures Explained(SucceededRecord(r, c), job, log + [c])
  {
    LogGrowsExplained(r, job, log, c);
    assert (log + [c])[|log|] == c;
    assert SuccessFields(SucceededRecord(r, c), c);
  }

  lemma FailedExplained(r: JobRecord, job: string, log: seq<Call>, c: Call)
    requires Explained(r, job, log) && !r.status.Terminal() && c.Fail? && c.id == job
    ensures Explained(FailedRecord(r, c), job, log + [c])
  {
    LogGrowsExplained(r, job, log, c);
    assert (log + [c])[|log|] == c;
    assert FailureFields(FailedRecord(r, c), c);
  }

  ghost predicate AllExplained(docs: Docs, log: seq<Call>) {
    forall job :: job in docs ==> Explained(docs[job], job, log)
  }

  /** Either store: a call changes at most the record that it names. */
  lemma OthersUntouched(kind: StoreKind, docs: Docs, c: Call, job: string)
    requires job != c.Id()
    ensures var after := StoreStep(kind, docs, c).0;
      (job in after <==> job in docs) && (job in docs ==> after[job] == docs[job])
  {}

  lemma CalledExplained(kind: StoreKind, docs: Docs, c: Call, log: seq<Call>)
    requires AllExplained(docs, log) && (c.Create? ==> IsNew(c.record))
    ensures c.Id() in StoreStep(kind, docs, c).0 ==> Explained(StoreStep(kind, docs, c).0[c.Id()], c.Id(), log + [c])
  {
    var id := c.Id();
    if id in docs {
      LogGrowsExplained(docs[id], id, log, c);
      match c {
        case Create(_) =>
        case Claim(_, now) => if docs[id].status == Queued { ClaimedExplained(docs[id], id, log, now); }
        case CancelIfQueued(_, now) => if docs[id].status == Queued { CancelledExplained(docs[id], id, log, now); }
        case Succeed(_, _, _, _, _, _) => if !docs[id].status.Terminal() { SucceededExplained(docs[id], id, log, c); }
        case Fail(_, _, _, _) => if !docs[id].status.Terminal() { FailedExplained(docs[id], id, log, c); }
      }
    } else if c.Create? {
      NewExplained(c.record, log);
    }
  }

  lemma CallKeepsExplained(kind: StoreKind, docs: Docs, c: Call, log: seq<Call>)
    requires AllExplained(docs, log) && (c.Create? ==> IsNew(c.record))
    ensures AllExplained(StoreStep(kind, docs, c).0, log + [c])
  {
    var after := StoreStep(kind, docs, c).0;
    forall job | job in after
      ensures Explained(after[job], job, log + [c])
    {
      if job == c.Id() {
        CalledExplained(kind, docs, c, log);
      } else {
        OthersUntouched(kind, docs, c, job);
        LogGrowsExplained(docs[job], job, log, c);
      }
    }
  }

  // ---------- whole runs ----------

  /** The store call that an action makes, if it gets that far. */
  function CallOf(s: State, a: Action): Option<Call> {
    match a
    case CreateRecord(c, o) =>
      if c in s.callers && s.callers[c].Creating? && TookEffect(o) then Some(Create(s.callers[c].record)) else None
    case FailQueue(c, now, message, o) =>
      if c in s.callers && s.callers[c].QueueFailed? && TookEffect(o)
      then Some(Fail(s.callers[c].job, now, "QUEUE_UNAVAILABLE", message)) else None
    case Cancel(c, now, o) =>
      if c in s.callers && s.callers[c].Cancelling? && TookEffect(o)
      then Some(CancelIfQueued(s.callers[c].job, now)) else None
    case Reject(h, now, o) =>
      if h in s.handlers && TookEffect(o)
      then Some(Fail(s.handlers[h].job, now, "POLICY_REJECTED", "Job policy is no longer valid")) else None
    case ClaimJob(h, now, o) =>
      if h in s.handlers && TookEffect(o) then Some(Claim(s.handlers[h].job, now)) else None
    case Report(h, o) =>
      if h in s.handlers && s.handlers[h].Reporting? && TookEffect(o) then Some(s.handlers[h].success) else None
    case FailExecution(h, now, o) =>
      if h in s.handlers && TookEffect(o)
      then Some(Fail(s.handlers[h].job, now, "EXECUTION_FAILED", ExecutionMessage(s.handlers[h].job))) else None
    case _ => None
  }

  /** A step makes the call of its action, or leaves the documents alone. */
  ghost predicate MakesCall(s: State, c: Option<Call>, s': State) {
    match c
    case None => s'.docs == s.docs && s'.log == s.log
    case Some(call) => s'.docs == StoreStep(s.store, s.docs, call).0 && s'.log == s.log + [call]
  }

  lemma CallerCalls(s: State, a: Action, s': State)
    requires CallerStep(s, a) == Some(s')
    ensures MakesCall(s, CallOf(s, a), s')
  {}

  lemma HandlerCalls(s: State, a: Action, s': State)
    requires HandlerStep(s, a) == Some(s')
    ensures MakesCall(s, CallOf(s, a), s')
  {}

  lemma StepCalls(s: State, a: Action, s': State)
    requires Step(s, a) == Some(s')
    ensures MakesCall(s, CallOf(s, a), s')
  {
    if CallerStep(s, a).Some? {
      CallerCalls(s, a, s');
    } else {
      HandlerCalls(s, a, s');
    }
  }

  /** New records are built by the API. */
  lemma CreatesNew(s: State, a: Action)
    requires Inv(s) && CallOf(s, a).Some? && CallOf(s, a).value.Create?
    ensures IsNew(CallOf(s, a).value.record)
  {
    if a.CreateRecord? {
      assert CallerOk(s, s.callers[a.c]);
    }
  }

  /** The action behind a step of a run. */
  lemma ActionOf(run: seq<State>, j: nat) returns (a: Action)
    requires IsRun(run) && 0 < j < |run|
    ensures Step(run[j - 1], a) == Some(run[j])
  {
    assert MovesAt(run, j - 1);
    a :| Step(run[j - 1], a) == Some(run[j]);
  }

  /** In every reachable state of either store, every field of every record comes from a call. */
  lemma {:induction false} RecordsExplained(run: seq<State>, j: nat)
    requires IsRun(run) && j < |run|
    ensures AllExplained(run[j].docs, run[j].log)
  {
    if j > 0 {
      RecordsExplained(run, j - 1);
      RunKeeps(run, j - 1);
      var a := ActionOf(run, j);
      StepCalls(run[j - 1], a, run[j]);
      var call := CallOf(run[j - 1], a);
      if call.Some? {
        if call.value.Create? {
          CreatesNew(run[j - 1], a);
        }
        CallKeepsExplained(run[j - 1].store, run[j - 1].docs, call.value, run[j - 1].log);
      }
    }
  }

  /** The request of a job, its owner and its time of creation never change. */
  lemma {:induction false} RequestFixed(run: seq<State>, i: nat, j: nat, job: string)
    requires IsRun(run) && i <= j < |run| && job in run[i].docs
    ensures job in run[j].docs && SameRequest(run[j].docs[job], run[i].docs[job])
    decreases j - i
  {
    if i < j {
      RequestFixed(run, i, j - 1, job);
      var a := ActionOf(run, j);
      StepCalls(run[j - 1], a, run[j]);
      var call := CallOf(run[j - 1], a);
      if call.Some? {
        CallKeepsRequest(run[j - 1].store, run[j - 1].docs, call.value, job);
      }
    }
  }

  lemma CallKeepsRequest(kind: StoreKind, docs: Docs, c: Call, job: string)
    requires job in docs
    ensures job in StoreStep(kind, docs, c).0 && SameRequest(StoreStep(kind, docs, c).0[job], docs[job])
  {}

  /** A failure carries one of three codes; that of an execution tells the owner which job to ask about. */
  lemma {:induction false} FailureCodes(run: seq<State>, j: nat, c: Call)
    requires IsRun(run) && j < |run| && c in run[j].log && c.Fail?
    ensures c.errorCode in ["QUEUE_UNAVAILABLE", "POLICY_REJECTED", "EXECUTION_FAILED"]
    ensures c.errorCode == "EXECUTION_FAILED" ==>
              c.errorMessage == "Search execution failed. Contact support with job ID " + c.id + "."
    ensures c.errorCode == "POLICY_REJECTED" ==> c.errorMessage == "Job policy is no longer valid"
  {
    if j > 0 {
      var a := ActionOf(run, j);
      StepCalls(run[j - 1], a, run[j]);
      if c in run[j - 1].log {
        FailureCodes(run, j - 1, c);
      } else {
        RunKeeps(run, j - 1);
        FailCode(run[j - 1], a);
      }
    }
  }

  lemma FailCode(s: State, a: Action)
    requires Inv(s) && CallOf(s, a).Some? && CallOf(s, a).value.Fail?
    ensures var c := CallOf(s, a).value;
      c.errorCode in ["QUEUE_UNAVAILABLE", "POLICY_REJECTED", "EXECUTION_FAILED"] &&
      (c.errorCode == "EXECUTION_FAILED" ==>
         c.errorMessage == "Search execution failed. Contact support with job ID " + c.id + ".") &&
      (c.errorCode == "POLICY_REJECTED" ==> c.errorMessage == "Job policy is no longer valid")
  {
    if a.Report? {
      ReportsSuccess(s, a);
    }
  }

  lemma ReportsSuccess(s: State, a: Action)
    requires Inv(s) && a.Report? && CallOf(s, a).Some?
    ensures CallOf(s, a).value.Succeed? && CallOf(s, a).value.id == s.handlers[a.h].job
  {
    assert HandlerOk(s, a.h, s.handlers[a.h]);
  }

  // ---------- a success is what the claimant's execution produced ----------

  /** Between states `i` and `i + 1` the executor of delivery `h` produced `c`. */
  ghost predicate ProducedAt(run: seq<State>, i: int, h: nat, c: Call) {
    0 <= i < |run| - 1 && Produces(run[i], h, c, run[i + 1])
  }

  ghost predicate Produces(s: State, h: nat, c: Call, s': State) {
    Step(s, Execute(h, Some(c))) == Some(s')
  }

  lemma ReportsOnlyProduced(s: State, a: Action, s': State, h: nat)
    requires Step(s, a) == Some(s') && h in s'.handlers && s'.handlers[h].Reporting?
    requires !(h in s.handlers && s.handlers[h] == s'.handlers[h])
    ensures Produces(s, h, s'.handlers[h].success, s')
  {
    if CallerStep(s, a).Some? {
      CallerKeepsHandlers(s, a);
    } else {
      HandlerReports(s, a, h);
    }
  }

  lemma CallerKeepsHandlers(s: State, a: Action)
    requires CallerStep(s, a).Some?
    ensures CallerStep(s, a).value.handlers == s.handlers
  {}

  lemma HandlerReports(s: State, a: Action, h: nat)
    requires HandlerStep(s, a).Some? && h in HandlerStep(s, a).value.handlers
    requires HandlerStep(s, a).value.handlers[h].Reporting?
    requires !(h in s.handlers && s.handlers[h] == HandlerStep(s, a).value.handlers[h])
    ensures a == Execute(h, Some(HandlerStep(s, a).value.handlers[h].success))
  {}

  /** What a delivery reports is what its executor produced. */
  lemma {:induction false} ReportingProduced(run: seq<State>, j: nat, h: nat) returns (i: nat)
    requires IsRun(run) && j < |run| && h in run[j].handlers && run[j].handlers[h].Reporting?
    ensures i < j && ProducedAt(run, i, h, run[j].handlers[h].success)
  {
    assert j > 0;
    var a := ActionOf(run, j);
    if h in run[j - 1].handlers && run[j - 1].handlers[h] == run[j].handlers[h] {
      i := ReportingProduced(run, j - 1, h);
    } else {
      ReportsOnlyProduced(run[j - 1], a, run[j], h);
      i := j - 1;
    }
  }

  /** A job comes to succeed by the report of a success, whose values its record then holds. */
  lemma SuccessStep(s: State, a: Action, s': State, job: string)
    requires Inv(s) && Step(s, a) == Some(s') && job in s'.docs && s'.docs[job].status == Succeeded
    requires job in s.docs && s.docs[job].status != Succeeded
    ensures a.Report? && a.h in s.handlers && s.handlers[a.h].Reporting? && s.handlers[a.h].job == job
    ensures s.handlers[a.h].success.Succeed? && SuccessFields(s'.docs[job], s.handlers[a.h].success)
  {
    StepCalls(s, a, s');
    var c := CallOf(s, a);
    SuccessCall(s.store, s.docs, c.value, job);
    SucceedIsReport(s, a);
    ReportsSuccess(s, a);
  }

  lemma SuccessCall(kind: StoreKind, docs: Docs, c: Call, job: string)
    requires job in docs && docs[job].status != Succeeded
    requires job in StoreStep(kind, docs, c).0 && StoreStep(kind, docs, c).0[job].status == Succeeded
    ensures c.Succeed? && c.id == job && SuccessFields(StoreStep(kind, docs, c).0[job], c)
  {}

  lemma SucceedIsReport(s: State, a: Action)
    requires CallOf(s, a).Some? && CallOf(s, a).value.Succeed?
    ensures a.Report? && a.h in s.handlers && s.handlers[a.h].Reporting? &&
              s.handlers[a.h].success == CallOf(s, a).value
  {}

  /**
   * Over either store, the artifact, the snapshot and the counts of a succeeded job are those that the execution of
   * the delivery that claimed it produced.
   */
  lemma {:induction false} SuccessIsProduced(run: seq<State>, j: nat, job: string) returns (i: nat, h: nat, c: Call)
    requires IsRun(run) && j < |run| && job in run[j].docs && run[j].docs[job].status == Succeeded
    ensures i < j && ProducedAt(run, i, h, c) && ClaimedBy(run[j], job, h)
    ensures c.Succeed? && c.id == job && SuccessFields(run[j].docs[job], c)
  {
    assert j > 0;
    if job in run[j - 1].docs && run[j - 1].docs[job].status == Succeeded {
      i, h, c := SuccessIsProduced(run, j - 1, job);
      TerminalForever(run, j - 1, j, job);
      ClaimantsRemain(run, j - 1, j, job);
    } else {
      i, h, c := SuccessReported(run, j, job);
    }
  }

  /** The step in which a job comes to succeed: which delivery reported what. */
  lemma SuccessOf(s: State, a: Action, s': State, job: string) returns (h: nat, c: Call)
    requires Inv(s) && Step(s, a) == Some(s') && job in s.docs && s.docs[job].status != Succeeded
    requires job in s'.docs && s'.docs[job].status == Succeeded
    ensures Actor(a) == Some(h) && h in s.handlers && s.handlers[h] == Reporting(job, c)
    ensures c.Succeed? && c.id == job && SuccessFields(s'.docs[job], c)
  {
    SuccessStep(s, a, s', job);
    h, c := a.h, s.handlers[a.h].success;
    ReportsOwn(s, h);
  }

  lemma SuccessReported(run: seq<State>, j: nat, job: string) returns (i: nat, h: nat, c: Call)
    requires IsRun(run) && 0 < j < |run| && job in run[j].docs && run[j].docs[job].status == Succeeded
    requires job in run[j - 1].docs ==> run[j - 1].docs[job].status != Succeeded
    ensures i < j && ProducedAt(run, i, h, c) && ClaimedBy(run[j], job, h)
    ensures c.Succeed? && c.id == job && SuccessFields(run[j].docs[job], c)
  {
    h, c := ReporterOf(run, j, job);
    i := ReportingProduced(run, j - 1, h);
    ClaimantsRemain(run, j - 1, j, job);
  }

  lemma ReporterOf(run: seq<State>, j: nat, job: string) returns (h: nat, c: Call)
    requires IsRun(run) && 0 < j < |run| && job in run[j].docs && run[j].docs[job].status == Succeeded
    requires job in run[j - 1].docs ==> run[j - 1].docs[job].status != Succeeded
    ensures ClaimedBy(run[j - 1], job, h) && h in run[j - 1].handlers && run[j - 1].handlers[h] == Reporting(job, c)
    ensures c.Succeed? && c.id == job && SuccessFields(run[j].docs[job], c)
  {
    var a := ActionOf(run, j);
    SucceedsByClaimant(run, j - 1, a, job);
    RunKeeps(run, j - 1);
    h, c := SuccessOf(run[j - 1], a, run[j], job);
  }

  lemma ReportsOwn(s: State, h: nat)
    requires Inv(s) && h in s.handlers && s.handlers[h].Reporting?
    ensures s.handlers[h].success.Succeed? && s.handlers[h].success.id == s.handlers[h].job
  {
    assert HandlerOk(s, h, s.handlers[h]);
  }

  // ---------- what the API does to a record ----------

  /**
   * A cancel call that returns: a queued job is cancelled, and the answer is its record; otherwise nothing changes,
   * and the request is refused when it had seen the job running, or answered with what it had seen.
   */
  lemma CancelOutcome(s: State, a: Action, s': State)
    requires a.Cancel? && a.outcome == Returns && Step(s, a) == Some(s')
    requires s.callers[a.c].job in s.docs
    ensures a.c in s.callers && s.callers[a.c].Cancelling? && a.c in s'.callers
    ensures var job, seen := s.callers[a.c].job, s.callers[a.c].seen; var r := s.docs[job];
      if r.status == Queued then
        && s'.docs == s.docs[job := r.(status := Cancelled, finished := Some(a.now))]
        && s'.callers[a.c] == CancelAnswered(job, s'.docs[job])
      else
        && s'.docs == s.docs
        && s'.callers[a.c] == if seen.status == Running then CancelRefused(job) else CancelAnswered(job, seen)
  {}

  /**
   * After an enqueue that raised, a failure that can be recorded is, unless a delivery has finished the job
   * already.
   */
  lemma QueueFailureOutcome(s: State, a: Action, s': State)
    requires a.FailQueue? && TookEffect(a.outcome) && Step(s, a) == Some(s')
    requires s.callers[a.c].job in s.docs && |a.message| <= 1000
    ensures var job := s.callers[a.c].job; var r := s.docs[job];
      s'.docs == if r.status.Terminal() then s.docs
                 else s.docs[job := r.(status := Failed, finished := Some(a.now),
                     errorCode := Some("QUEUE_UNAVAILABLE"),
                                       errorMessage := Some(a.message))]
  {}

  /** `download_job` finds a report. */
  predicate Downloadable(r: JobRecord) { r.status == Succeeded && r.artifact.Some? }

  /** A report can be downloaded exactly for succeeded jobs, and it is the same one ever after. */
  lemma DownloadableForever(run: seq<State>, i: nat, j: nat, job: string)
    requires IsRun(run) && i <= j < |run| && job in run[i].docs
    ensures Downloadable(run[i].docs[job]) <==> run[i].docs[job].status == Succeeded
    ensures Downloadable(run[i].docs[job]) ==> job in run[j].docs && run[j].docs[job] == run[i].docs[job]
  {
    RecordsTruthful(run, i, job);
    if Downloadable(run[i].docs[job]) {
      TerminalForever(run, i, j, job);
    }
  }
}
