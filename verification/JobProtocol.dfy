/**
 * The life of a job in either store, under API calls, duplicate task deliveries, policy changes, store errors and
 * crashes.
 */
module JobProtocol {
  import opened Jobs
  import opened Wrappers

  /** One delivery of a task to the worker, and how far it got. */
  datatype Handler =
    | Delivered(job: string)
    | Fetched(job: string)                 // the record was QUEUED
    | Rejecting(job: string)               // the policy no longer allows the request
    | Validated(job: string)
    | Executing(job: string)               // claimed
    | Reporting(job: string, success: Call)
    | Failing(job: string)                 // an exception was caught
    | Returned(job: string)                // answered 204
    | Broken(job: string)                  // crashed, or the store failed outside the try block

  /** One API request that changes a job. */
  datatype Caller =
    | Creating(record: JobRecord)
    | Enqueuing(job: string)
    | QueueFailed(job: string)
    | Cancelling(job: string, seen: JobRecord)
    | CancelAnswered(job: string, answer: JobRecord)
    | CancelRefused(job: string)
    | Over

  datatype State = State(
    store: StoreKind, docs: Docs, tasks: set<string>, handlers: map<nat, Handler>, callers: map<nat, Caller>,
    claimants: map<string, nat>, executions: map<string, nat>, writes: map<string, nat>, log: seq<Call>)

  predicate Init(s: State) {
    s == State(s.store, map[], {}, map[], map[], map[], map[], map[], [])
  }

  /** A new record as the API builds it. */
  predicate IsNew(r: JobRecord) {
    && r.status == Queued && r.started.None? && r.finished.None? && r.errorCode.None? && r.errorMessage.None?
    && r.artifact.None? && r.cacheRunId.None? && r.filesScanned.None? && r.matchesFound.None?
  }

  datatype Action =
    | Submit(c: nat, record: JobRecord)
    | CreateRecord(c: nat, outcome: Outcome)
    | Enqueue(c: nat, outcome: Outcome)
    | FailQueue(c: nat, now: nat, message: string, outcome: Outcome)
    | RequestCancel(c: nat, job: string)
    | Cancel(c: nat, now: nat, outcome: Outcome)
    | Deliver(h: nat, job: string)
    | Fetch(h: nat, ok: bool)
    | Validate(h: nat, allowed: bool)
    | Reject(h: nat, now: nat, outcome: Outcome)
    | ClaimJob(h: nat, now: nat, outcome: Outcome)
    | Execute(h: nat, result: Option<Call>)
    | Report(h: nat, outcome: Outcome)
    | FailExecution(h: nat, now: nat, outcome: Outcome)
    | Crash(h: nat)

  function Get(m: map<string, nat>, k: string): nat { if k in m then m[k] else 0 }

  /** A store call that takes effect: the documents change, and the history with them. */
  function Perform(s: State, c: Call): State {
    var (docs, _) := StoreStep(s.store, s.docs, c);
    s.(docs := docs,
       writes := if docs != s.docs && c.Id() in s.docs then s.writes[c.Id() := Get(s.writes, c.Id()) + 1] else s.writes,
       log := s.log + [c])
  }

  function PerformIf(s: State, c: Call, o: Outcome): State { if TookEffect(o) then Perform(s, c) else s }

  function ReplyTo(s: State, c: Call): Reply { StoreStep(s.store, s.docs, c).1 }

  function Move(s: State, h: nat, x: Handler): State { s.(handlers := s.handlers[h := x]) }

  function MoveCaller(s: State, c: nat, x: Caller): State { s.(callers := s.callers[c := x]) }

  /** What the owner of a job reads when its execution failed. */
  function ExecutionMessage(job: string): string {
    "Search execution failed. Contact support with job ID " + job + "."
  }

  /** Whether `store.claim` gave the job to this delivery. */
  predicate Wins(s: State, job: string) { job in s.docs && s.docs[job].status == Queued }

  // ---------- API steps ----------

  function CallerStep(s: State, a: Action): Option<State> {
    match a
    case Submit(c, record) =>
      if c !in s.callers && IsNew(record) then Some(MoveCaller(s, c, Creating(record))) else None
    case CreateRecord(c, o) =>
      if c in s.callers && s.callers[c].Creating? then
        var call := Create(s.callers[c].record);
        Some(MoveCaller(PerformIf(s, call, o), c,
                        if o == Returns && ReplyTo(s, call) == Done then Enqueuing(call.Id()) else Over))
      else None
    case Enqueue(c, o) =>
      if c in s.callers && s.callers[c].Enqueuing? then
        var job := s.callers[c].job;
        Some(MoveCaller(if TookEffect(o) then s.(tasks := s.tasks + {job}) else s, c,
                        if o == Returns then Over else QueueFailed(job)))
      else None
    case FailQueue(c, now, message, o) =>
      if c in s.callers && s.callers[c].QueueFailed? then
        Some(MoveCaller(PerformIf(s, Fail(s.callers[c].job, now, "QUEUE_UNAVAILABLE", message), o), c, Over))
      else None
    case RequestCancel(c, job) =>
      if c !in s.callers && job in s.docs then Some(MoveCaller(s, c, Cancelling(job, s.docs[job]))) else None
    case Cancel(c, now, o) =>
      if c in s.callers && s.callers[c].Cancelling? then
        var job, seen, call := s.callers[c].job, s.callers[c].seen, CancelIfQueued(s.callers[c].job, now);
        var answer :=
          if o != Returns then Over
          else if ReplyTo(s, call).Record? then CancelAnswered(job, ReplyTo(s, call).record)
          else if seen.status == Running then CancelRefused(job)
          else CancelAnswered(job, seen);
        Some(MoveCaller(PerformIf(s, call, o), c, answer))
      else None
    case _ => None
  }

  // ---------- worker steps ----------

  function HandlerStep(s: State, a: Action): Option<State> {
    match a
    case Deliver(h, job) =>
      if h !in s.handlers && job in s.tasks then Some(Move(s, h, Delivered(job))) else None
    case Fetch(h, ok) =>
      if h in s.handlers && s.handlers[h].Delivered? then
        var job := s.handlers[h].job;
        Some(Move(s, h, if !ok then Broken(job) else if Wins(s, job) then Fetched(job) else Returned(job)))
      else None
    case Validate(h, allowed) =>
      if h in s.handlers && s.handlers[h].Fetched? then
        var job := s.handlers[h].job;
        Some(Move(s, h, if allowed then Validated(job) else Rejecting(job)))
      else None
    case Reject(h, now, o) =>
      if h in s.handlers && s.handlers[h].Rejecting? then
        var job := s.handlers[h].job;
        var call := Fail(job, now, "POLICY_REJECTED", "Job policy is no longer valid");
        Some(Move(PerformIf(s, call, o), h,
                  if o == Returns && !ReplyTo(s, call).Raises? then Returned(job) else Broken(job)))
      else None
    case ClaimJob(h, now, o) =>
      if h in s.handlers && s.handlers[h].Validated? then
        var job, call := s.handlers[h].job, Claim(s.handlers[h].job, now);
        var after := PerformIf(s, call, o);
        var claimed := if TookEffect(o) && Wins(s, job) then after.(claimants := s.claimants[job := h]) else after;
        Some(Move(claimed, h,
                  if o != Returns then Failing(job) else if Wins(s, job) then Executing(job) else Returned(job)))
      else None
    case Execute(h, result) =>
      if h in s.handlers && s.handlers[h].Executing? &&
         (result.Some? ==> result.value.Succeed? && result.value.id == s.handlers[h].job) then
        var job := s.handlers[h].job;
        Some(Move(s.(executions := s.executions[job := Get(s.executions, job) + 1]), h,
                  if result.Some? then Reporting(job, result.value) else Failing(job)))
      else None
    case Report(h, o) =>
      if h in s.handlers && s.handlers[h].Reporting? then
        var job, call := s.handlers[h].job, s.handlers[h].success;
        Some(Move(PerformIf(s, call, o), h,
                  if o == Returns && !ReplyTo(s, call).Raises? then Returned(job) else Failing(job)))
      else None
    case FailExecution(h, now, o) =>
      if h in s.handlers && s.handlers[h].Failing? then
        var job := s.handlers[h].job;
        var call := Fail(job, now, "EXECUTION_FAILED", ExecutionMessage(job));
        Some(Move(PerformIf(s, call, o), h,
                  if o == Returns && !ReplyTo(s, call).Raises? then Returned(job) else Broken(job)))
      else None
    case Crash(h) =>
      if h in s.handlers then Some(Move(s, h, Broken(s.handlers[h].job))) else None
    case _ => None
  }

  function Step(s: State, a: Action): Option<State> {
    if CallerStep(s, a).Some? then CallerStep(s, a) else HandlerStep(s, a)
  }

  ghost predicate Next(s: State, s': State) { exists a :: Step(s, a) == Some(s') }

  ghost predicate MovesAt(run: seq<State>, i: int) { 0 <= i < |run| - 1 ==> Next(run[i], run[i + 1]) }

  /** A run of the whole system. */
  ghost predicate IsRun(run: seq<State>) {
    run != [] && Init(run[0]) && forall i :: MovesAt(run, i)
  }

  // ---------- the invariant ----------

  predicate ClaimedBy(s: State, job: string, h: nat) { job in s.claimants && s.claimants[job] == h }

  /** A record says exactly what happened to its job. */
  predicate RecordOk(s: State, job: string)
    requires job in s.docs
  {
    var r := s.docs[job];
    && (r.artifact.Some? <==> r.status == Succeeded)
    && (r.errorCode.Some? <==> r.status == Failed)
    && (r.finished.Some? <==> r.status.Terminal())
    && (r.started.Some? <==> job in s.claimants)
    && (r.status == Queued || r.status == Cancelled ==> r.started.None?)
    && (r.status == Running || r.status == Succeeded ==> r.started.Some?)
    && Get(s.writes, job) == (if r.started.Some? then 1 else 0) + (if r.finished.Some? then 1 else 0)
    && Get(s.executions, job) <= (if job in s.claimants then 1 else 0)
  }

  predicate HandlerOk(s: State, h: nat, x: Handler) {
    && x.job in s.docs
    && match x
       case Delivered(job) => !ClaimedBy(s, job, h)
       case Fetched(job) => !ClaimedBy(s, job, h)
       case Rejecting(job) => !ClaimedBy(s, job, h)
       case Validated(job) => !ClaimedBy(s, job, h)
       case Executing(job) =>
         ClaimedBy(s, job, h) && Get(s.executions, job) == 0 &&
             (s.docs[job].status == Running || s.docs[job].status == Failed)
       case Reporting(job, success) =>
         && success.Succeed? && success.id == job
         && ClaimedBy(s, job, h) && (s.docs[job].status == Running || s.docs[job].status == Failed)
       case Failing(job) => true
       case Returned(job) => s.docs[job].status != Queued && (ClaimedBy(s, job, h) ==> s.docs[job].status.Terminal())
       case Broken(job) => true
  }

  predicate CallerOk(s: State, x: Caller) {
    match x
    case Creating(record) => IsNew(record)
    case Enqueuing(job) => job in s.docs
    case QueueFailed(job) => job in s.docs
    case Cancelling(job, seen) => job in s.docs && (seen.status == Cancelled ==> s.docs[job] == seen)
    case CancelAnswered(job, answer) => job in s.docs && (answer.status == Cancelled ==> s.docs[job] == answer)
    case CancelRefused(job) => job in s.docs
    case Over => true
  }

  ghost predicate Inv(s: State) {
    && (forall job :: job in s.docs ==> RecordOk(s, job))
    && (forall job :: job in s.claimants ==> job in s.docs && s.claimants[job] in s.handlers)
    && (forall job :: job !in s.docs ==> Get(s.writes, job) == 0 && Get(s.executions, job) == 0)
    && s.tasks <= s.docs.Keys
    && (forall h :: h in s.handlers ==> HandlerOk(s, h, s.handlers[h]))
    && (forall c :: c in s.callers ==> CallerOk(s, s.callers[c]))
    && s.docs == Replay(Firestore, s.log) == Replay(InMemory, s.log)
  }
}
