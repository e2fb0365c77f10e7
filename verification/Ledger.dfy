/** One job's partition of the ledger, and every conditional write to it. */
module Ledger {
  import opened Bytes
  import opened States

  datatype Counts = Counts(
    recordsRead: nat, recordsPublished: nat, recordsRejected: nat, recordsIgnored: nat,
    messagesPublished: nat, sendMessageBatchCalls: nat, physicalLinesIgnored: nat)

  const ZERO: Counts := Counts(0, 0, 0, 0, 0, 0, 0)

  function Plus(a: Counts, b: Counts): Counts {
    Counts(a.recordsRead + b.recordsRead, a.recordsPublished + b.recordsPublished,
           a.recordsRejected + b.recordsRejected, a.recordsIgnored + b.recordsIgnored,
           a.messagesPublished + b.messagesPublished, a.sendMessageBatchCalls + b.sendMessageBatchCalls,
           a.physicalLinesIgnored + b.physicalLinesIgnored)
  }

  datatype Range = Range(startByte: int, endByte: int)

  datatype Outcome = Success | WithRejections | NoResult

  /** The completion event. Its id is a digest of jobId and version; the digest is
      left uninterpreted, so the id is kept as what is digested. */
  datatype EventId = EventId(jobId: string, version: nat)
  datatype Event = Event(
    id: EventId, status: Status, result: Outcome, counts: Counts, countsComplete: bool, completedAt: int)

  datatype JobItem = JobItem(
    fileId: string, status: Status, expectedChunks: Option<nat>, manifestSealed: bool,
    completedChunks: nat, failedChunks: nat, totals: Counts)

  datatype ChunkItem = ChunkItem(range: Range, status: ChunkState, attempt: int, counts: Counts, scheduled: bool)

  datatype Intent = Intent(event: Event, pending: bool)

  datatype Table = Table(job: Option<JobItem>, chunks: map<nat, ChunkItem>, intent: Option<Intent>)

  const EMPTY: Table := Table(None, map[], None)

  predicate StatusIn(t: Table, s: set<Status>) { t.job.Some? && t.job.value.status in s }
  predicate Sealed(t: Table) { t.job.Some? && t.job.value.manifestSealed }

  function NewChunk(r: Range): ChunkItem { ChunkItem(r, ChunkPending, 0, ZERO, false) }

  // ---- Conditional writes: None when the condition fails -------------------------

  function WithJob(t: Table, j: JobItem): Table { t.(job := Some(j)) }
  function WithChunk(t: Table, c: nat, item: ChunkItem): Table { t.(chunks := t.chunks[c := item]) }

  function PutReceived(t: Table, fileId: string): Option<Table> {
    if t.job.Some? then None
    else Some(WithJob(t, JobItem(fileId, RECEIVED, None, false, 0, 0, ZERO)))
  }

  function Advance(t: Table, from: set<Status>, to: Status): Option<Table> {
    if StatusIn(t, from) then Some(WithJob(t, t.job.value.(status := to))) else None
  }

  /** First write of a plan: creates the job as PENDING, or fixes the expected
      count of an existing one; a different count or file is refused. */
  function PutPlan(t: Table, fileId: string, expected: nat): Option<Table> {
    match t.job
    case None => Some(WithJob(t, JobItem(fileId, PENDING, Some(expected), false, 0, 0, ZERO)))
    case Some(j) =>
      if j.fileId == fileId && (j.expectedChunks.None? || j.expectedChunks == Some(expected))
      then Some(WithJob(t, j.(expectedChunks := Some(expected)))) else None
  }

  function PutChunk(t: Table, c: nat, r: Range): Option<Table> {
    if c !in t.chunks then Some(WithChunk(t, c, NewChunk(r)))
    else if t.chunks[c].range == r then Some(t)
    else None
  }

  /** Seals the manifest and resets the status to PENDING, whatever it was. */
  function Seal(t: Table, fileId: string, expected: nat): Option<Table> {
    if && t.job.Some? && t.job.value.fileId == fileId
       && t.job.value.expectedChunks == Some(expected) && !t.job.value.manifestSealed
    then Some(WithJob(t, t.job.value.(manifestSealed := true, status := PENDING))) else None
  }

  function Checkpoint(t: Table, c: nat): Option<Table> {
    if c in t.chunks && t.chunks[c].status.ChunkPending?
    then Some(WithChunk(t, c, t.chunks[c].(scheduled := true))) else None
  }

  function MarkJob(t: Table, to: Status): Option<Table> {
    if t.job.Some? && t.job.value.manifestSealed && t.job.value.status in {PENDING, PLANNING, to}
    then Some(WithJob(t, t.job.value.(status := to))) else None
  }

  function Start(t: Table, c: nat, attempt: int): Option<Table> {
    if c in t.chunks && (t.chunks[c].status.ChunkPending? || t.chunks[c].status.ChunkRetryPending?)
    then Some(WithChunk(t, c, t.chunks[c].(status := ChunkRunning, attempt := attempt))) else None
  }

  function Acquire(t: Table, c: nat): Option<Table> {
    if c in t.chunks && t.chunks[c].status.ChunkPending?
    then Some(WithChunk(t, c, t.chunks[c].(status := ChunkRunning, attempt := t.chunks[c].attempt + 1))) else None
  }

  // The guard every worker write shares: this attempt holds the chunk.
  predicate Holds(t: Table, c: nat, attempt: int) {
    c in t.chunks && t.chunks[c].status.ChunkRunning? && t.chunks[c].attempt == attempt
  }

  predicate JobOpen(t: Table) { StatusIn(t, {PENDING, SCHEDULED, RUNNING}) }

  /** Transaction: the chunk becomes COMPLETED and its counts join the job's. */
  function Complete(t: Table, c: nat, attempt: int, counts: Counts): Option<Table> {
    if !Holds(t, c, attempt) || !JobOpen(t) then None else
    var j := t.job.value;
    Some(WithJob(WithChunk(t, c, t.chunks[c].(status := ChunkCompleted, counts := counts)),
                 j.(status := RUNNING, completedChunks := j.completedChunks + 1, totals := Plus(j.totals, counts))))
  }

  function Retry(t: Table, c: nat, attempt: int): Option<Table> {
    if Holds(t, c, attempt) then Some(WithChunk(t, c, t.chunks[c].(status := ChunkRetryPending))) else None
  }

  /** Transaction: the chunk becomes FAILED and the job counts it. */
  function Fail(t: Table, c: nat, attempt: int): Option<Table> {
    if !Holds(t, c, attempt) || !JobOpen(t) then None else
    var j := t.job.value;
    Some(WithJob(WithChunk(t, c, t.chunks[c].(status := ChunkFailed)),
                 j.(status := RUNNING, failedChunks := j.failedChunks + 1)))
  }

  /** What ReconcileCompletion works out from the job item it has read, before its
      transaction: the intent to write. */
  function IntentFor(jobId: string, j: JobItem, now: int): Intent {
    var status := if j.failedChunks > 0 then FAILED else COMPLETED;
    var result :=
      if j.failedChunks > 0 then NoResult else if j.totals.recordsRejected > 0 then WithRejections else Success;
    Intent(Event(EventId(jobId, 1), status, result, j.totals, j.failedChunks == 0, now), true)
  }

  // All chunks are accounted for; a job without a plan yet expects none.
  predicate Due(j: JobItem) {
    j.manifestSealed && (j.expectedChunks.Some? ==> j.completedChunks + j.failedChunks >= j.expectedChunks.value)
  }

  predicate ReadyToFinish(j: JobItem) { j.status !in {COMPLETED, FAILED, REJECTED} && Due(j) }

  /** Transaction: job terminal and intent written, if the two chunk counters are
      still the ones that were read. The record totals are not compared. */
  function Finish(t: Table, jobId: string, read: JobItem, now: int): Option<Table> {
    if && JobOpen(t) && t.job.value.manifestSealed
       && t.job.value.completedChunks == read.completedChunks
       && t.job.value.failedChunks == read.failedChunks
       && t.intent.None?
    then
      var intent := IntentFor(jobId, read, now);
      Some(WithJob(t, t.job.value.(status := intent.event.status)).(intent := Some(intent)))
    else None
  }

  function MarkDelivered(t: Table): Option<Table> {
    if t.intent.Some? && t.intent.value.pending
    then Some(t.(intent := Some(t.intent.value.(pending := false)))) else None
  }

  /** The intent a worker may send: the stored one, until it is marked. */
  function PendingIntent(t: Table): Option<Event> {
    if t.intent.Some? && t.intent.value.pending then Some(t.intent.value.event) else None
  }
}
