/** Job records and the two job stores. */
module Jobs {
  import opened Wrappers

  datatype JobStatus = Queued | Running | Succeeded | Failed | Cancelled {
    predicate Terminal() { Succeeded? || Failed? || Cancelled? }
  }

  datatype Artifact = Artifact(bucket: string, objectName: string, size: Option<nat>)

  datatype JobRecord = JobRecord(
    jobId: string, owner: string, request: string, status: JobStatus, created: nat,
    started: Option<nat>, finished: Option<nat>, errorCode: Option<string>, errorMessage: Option<string>,
    artifact: Option<Artifact>, cacheRunId: Option<string>, filesScanned: Option<nat>, matchesFound: Option<nat>)

  type Docs = map<string, JobRecord>

  /** One call of the store interface, with the time at which it runs. */
  datatype Call =
    | Create(record: JobRecord)
    | Claim(id: string, now: nat)
    | Succeed(id: string, now: nat, artifact: Artifact, cacheRunId: Option<string>, filesScanned: Option<nat>,
        matchesFound: nat)
    | Fail(id: string, now: nat, errorCode: string, errorMessage: string)
    | CancelIfQueued(id: string, now: nat)
  {
    function Id(): string { if Create? then record.jobId else id }
  }

  datatype Reply = Done | Record(record: JobRecord) | Nothing | Raises

  // ---------- the transitions ----------

  function Claimed(r: JobRecord, now: nat): JobRecord { r.(status := Running, started := Some(now)) }

  function CancelledRecord(r: JobRecord, now: nat): JobRecord { r.(status := Cancelled, finished := Some(now)) }

  function SucceededRecord(r: JobRecord, c: Call): JobRecord
    requires c.Succeed?
  {
    r.(status := Succeeded, finished := Some(c.now), artifact := Some(c.artifact), cacheRunId := c.cacheRunId,
       filesScanned := c.filesScanned, matchesFound := Some(c.matchesFound))
  }

  function FailedRecord(r: JobRecord, c: Call): JobRecord
    requires c.Fail?
  {
    r.(status := Failed, finished := Some(c.now), errorCode := Some(c.errorCode),
       errorMessage := Some(if |c.errorMessage| <= 1000 then c.errorMessage else c.errorMessage[..1000]))
  }

  /** create, claim and cancel are the same in both stores. */
  function CommonStep(docs: Docs, c: Call): (Docs, Reply)
    requires c.Create? || c.Claim? || c.CancelIfQueued?
  {
    match c
    case Create(record) =>
      if record.jobId in docs then (docs, Raises) else (docs[record.jobId := record], Done)
    case Claim(id, now) =>
      if id !in docs || docs[id].status != Queued then (docs, Nothing)
      else (docs[id := Claimed(docs[id], now)], Record(Claimed(docs[id], now)))
    case CancelIfQueued(id, now) =>
      if id !in docs || docs[id].status != Queued then (docs, Nothing)
      else (docs[id := CancelledRecord(docs[id], now)], Record(CancelledRecord(docs[id], now)))
  }

  /** The in-memory store raises unless the job is running (succeed) or active (fail). */
  function InMemoryStep(docs: Docs, c: Call): (Docs, Reply) {
    match c
    case Succeed(id, _, _, _, _, _) =>
      if id !in docs || docs[id].status != Running then (docs, Raises)
      else (docs[id := SucceededRecord(docs[id], c)], Record(SucceededRecord(docs[id], c)))
    case Fail(id, _, _, _) =>
      if id !in docs || docs[id].status.Terminal() then (docs, Raises)
      else (docs[id := FailedRecord(docs[id], c)], Record(FailedRecord(docs[id], c)))
    case _ => CommonStep(docs, c)
  }

  /** Firestore's `_finish` accepts any active job and returns a finished one unchanged. */
  function FirestoreStep(docs: Docs, c: Call): (Docs, Reply) {
    if c.Succeed? || c.Fail? then
      if c.id !in docs then (docs, Raises)
      else if docs[c.id].status.Terminal() then (docs, Record(docs[c.id]))
      else
        var after := if c.Succeed? then SucceededRecord(docs[c.id], c) else FailedRecord(docs[c.id], c);
        (docs[c.id := after], Record(after))
    else CommonStep(docs, c)
  }

  datatype StoreKind = InMemory | Firestore

  function StoreStep(kind: StoreKind, docs: Docs, c: Call): (Docs, Reply) {
    if kind == InMemory then InMemoryStep(docs, c) else FirestoreStep(docs, c)
  }

  // ---------- the stores ----------

  class InMemoryJobStore {
    var records: Docs

    constructor ()
      ensures records == map[]
    {
      records := map[];
    }

    method Create(record: JobRecord) returns (reply: Reply)
      modifies this
      ensures (records, reply) == InMemoryStep(old(records), Call.Create(record))
    {
      if record.jobId in records {
        return Raises;
      }
      records := records[record.jobId := record];
      reply := Done;
    }

    method Claim(id: string, now: nat) returns (reply: Reply)
      modifies this
      ensures (records, reply) == InMemoryStep(old(records), Call.Claim(id, now))
    {
      if id !in records || records[id].status != Queued {
        return Nothing;
      }
      var record := records[id].(status := Running);
      record := record.(started := Some(now));
      records := records[id := record];
      reply := Record(record);
    }

    method Succeed(id: string, now: nat, artifact: Artifact, cacheRunId: Option<string>, filesScanned: Option<nat>,
                   matchesFound: nat)
      returns (reply: Reply)
      modifies this
      ensures (records, reply) ==
              InMemoryStep(old(records), Call.Succeed(id, now, artifact, cacheRunId, filesScanned, matchesFound))
    {
      if id !in records || records[id].status != Running {
        return Raises;
      }
      var record := records[id].(status := Succeeded);
      record := record.(finished := Some(now), artifact := Some(artifact));
      record := record.(cacheRunId := cacheRunId, filesScanned := filesScanned, matchesFound := Some(matchesFound));
      records := records[id := record];
      reply := Record(record);
    }

    method Fail(id: string, now: nat, errorCode: string, errorMessage: string) returns (reply: Reply)
      modifies this
      ensures (records, reply) == InMemoryStep(old(records), Call.Fail(id, now, errorCode, errorMessage))
    {
      if id !in records || (records[id].status != Queued && records[id].status != Running) {
        return Raises;
      }
      var record := records[id].(status := Failed);
      record := record.(finished := Some(now), errorCode := Some(errorCode));
      record := record.(errorMessage := Some(if |errorMessage| <= 1000 then errorMessage else errorMessage[..1000]));
      records := records[id := record];
      reply := Record(record);
    }

    method CancelIfQueued(id: string, now: nat) returns (reply: Reply)
      modifies this
      ensures (records, reply) == InMemoryStep(old(records), Call.CancelIfQueued(id, now))
    {
      if id !in records || records[id].status != Queued {
        return Nothing;
      }
      var record := records[id].(status := Cancelled);
      record := record.(finished := Some(now));
      records := records[id := record];
      reply := Record(record);
    }
  }

  /** Each method body is one transaction over the collection. */
  class FirestoreJobStore {
    var documents: Docs

    method Create(record: JobRecord) returns (reply: Reply)
      modifies this
      ensures (documents, reply) == FirestoreStep(old(documents), Call.Create(record))
    {
      if record.jobId in documents {
        return Raises;
      }
      documents := documents[record.jobId := record];
      reply := Done;
    }

    method Claim(id: string, now: nat) returns (reply: Reply)
      modifies this
      ensures (documents, reply) == FirestoreStep(old(documents), Call.Claim(id, now))
    {
      if id !in documents || documents[id].status != Queued {
        return Nothing;
      }
      var record := documents[id].(status := Running, started := Some(now));
      documents := documents[id := record];
      reply := Record(record);
    }

    method Succeed(id: string, now: nat, artifact: Artifact, cacheRunId: Option<string>, filesScanned: Option<nat>,
                   matchesFound: nat)
      returns (reply: Reply)
      modifies this
      ensures (documents, reply) ==
              FirestoreStep(old(documents), Call.Succeed(id, now, artifact, cacheRunId, filesScanned, matchesFound))
    {
      reply := Finish(id, Call.Succeed(id, now, artifact, cacheRunId, filesScanned, matchesFound));
    }

    method Fail(id: string, now: nat, errorCode: string, errorMessage: string) returns (reply: Reply)
      modifies this
      ensures (documents, reply) == FirestoreStep(old(documents), Call.Fail(id, now, errorCode, errorMessage))
    {
      reply := Finish(id, Call.Fail(id, now, errorCode, errorMessage));
    }

    /** `_finish`: the status, the finish time and the changes of the call, unless the job is finished already. */
    method Finish(id: string, changes: Call) returns (reply: Reply)
      requires (changes.Succeed? || changes.Fail?) && changes.id == id
      modifies this
      ensures (documents, reply) == FirestoreStep(old(documents), changes)
    {
      if id !in documents {
        return Raises;
      }
      var record := documents[id];
      if record.status != Queued && record.status != Running {
        return Record(record);
      }
      record := if changes.Succeed? then SucceededRecord(record, changes) else FailedRecord(record, changes);
      documents := documents[id := record];
      reply := Record(record);
    }

    method CancelIfQueued(id: string, now: nat) returns (reply: Reply)
      modifies this
      ensures (documents, reply) == FirestoreStep(old(documents), Call.CancelIfQueued(id, now))
    {
      if id !in documents || documents[id].status != Queued {
        return Nothing;
      }
      var record := documents[id].(status := Cancelled, finished := Some(now));
      documents := documents[id := record];
      reply := Record(record);
    }
  }

  // ---------- how the stores relate ----------

  predicate SucceedsQueued(docs: Docs, c: Call) {
    c.Succeed? && c.id in docs && docs[c.id].status == Queued
  }

  /** The stores make different transitions exactly for a success reported on a queued job. */
  lemma StoresDifferIff(docs: Docs, c: Call)
    ensures InMemoryStep(docs, c).0 != FirestoreStep(docs, c).0 <==> SucceedsQueued(docs, c)
  {
    if SucceedsQueued(docs, c) {
      assert FirestoreStep(docs, c).0[c.id].status == Succeeded;
    }
  }

  /**
   * Elsewhere they simulate each other: where the in-memory store returns, both make the same transition with
   * the same reply; where it raises, Firestore raises too for a missing or duplicate job, and otherwise
   * returns the finished record unchanged.
   */
  lemma StoresSimulate(docs: Docs, c: Call)
    requires !SucceedsQueued(docs, c)
    ensures InMemoryStep(docs, c).0 == FirestoreStep(docs, c).0
    ensures !InMemoryStep(docs, c).1.Raises? ==> InMemoryStep(docs, c) == FirestoreStep(docs, c)
    ensures FirestoreStep(docs, c).1.Raises? <==>
            if c.Create? then c.Id() in docs else (c.Succeed? || c.Fail?) && c.Id() !in docs
    ensures InMemoryStep(docs, c).1.Raises? ==>
              FirestoreStep(docs, c).0 == docs &&
              (FirestoreStep(docs, c).1.Raises? || (c.Id() in docs && FirestoreStep(docs, c).1 == Record(docs[c.Id()])))
  {}

  function Replay(kind: StoreKind, calls: seq<Call>): Docs {
    if calls == [] then map[] else StoreStep(kind, Replay(kind, calls[..|calls| - 1]), calls[|calls| - 1]).0
  }
}
