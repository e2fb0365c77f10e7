/** The ledger operations on one job's partition, each run without interruption. */
module Partition {
  import opened Bytes
  import opened States
  import opened Ledger

  datatype Acquisition = Acquired | AlreadyCompleted | Busy

  // ---- What the operations do to a table -----------------------------------------

  function OrSame(written: Option<Table>, t: Table): Table { if written.Some? then written.value else t }

  predicate ChunkIs(t: Table, c: nat, s: set<ChunkState>) { c in t.chunks && t.chunks[c].status in s }

  predicate Agrees(chunks: map<nat, ChunkItem>, plan: seq<Range>, c: nat) {
    c < |plan| && (c in chunks ==> chunks[c].range == plan[c])
  }

  // Chunk n is the first that is there with another range.
  ghost predicate StopsAt(chunks: map<nat, ChunkItem>, plan: seq<Range>, n: nat) {
    n < |plan| && !Agrees(chunks, plan, n) && forall c :: 0 <= c < n ==> Agrees(chunks, plan, c)
  }

  /** A plan is refused when the job has another file or another number of chunks,
      or when a chunk is already there with another range. */
  ghost predicate PlanFits(t: Table, fileId: string, plan: seq<Range>) {
    && PutPlan(t, fileId, |plan|).Some?
    && forall c :: 0 <= c < |plan| ==> Agrees(t.chunks, plan, c)
  }

  // The chunk items once chunks 0 to n-1 of a plan are written; those already
  // there stay as they are.
  function WithPlan(chunks: map<nat, ChunkItem>, plan: seq<Range>, n: nat): (r: map<nat, ChunkItem>)
    requires n <= |plan|
    ensures forall c :: c in r <==> c in chunks || 0 <= c < n
    ensures forall c :: c in r ==> r[c] == if c in chunks then chunks[c] else NewChunk(plan[c])
  {
    if n == 0 then chunks
    else
      var r := WithPlan(chunks, plan, n - 1);
      if n - 1 in r then r else r[n - 1 := NewChunk(plan[n - 1])]
  }

  /** The table after a plan that was accepted: nothing that was there is lost. */
  function PlannedTable(t: Table, fileId: string, plan: seq<Range>): Table {
    var j := OrSame(PutPlan(t, fileId, |plan|), t).job;
    t.(job := if j.Some? && !j.value.manifestSealed
              then Some(j.value.(manifestSealed := true, status := PENDING)) else j,
       chunks := WithPlan(t.chunks, plan, |plan|))
  }

  /** The table after a plan that stopped at chunk n: the first write, if it was
      accepted, and the chunks before n. */
  ghost predicate CutShort(t: Table, fileId: string, plan: seq<Range>, n: nat, t': Table) {
    && (if PutPlan(t, fileId, |plan|).None? then n == 0 else StopsAt(t.chunks, plan, n))
    && n <= |plan| && t' == OrSame(PutPlan(t, fileId, |plan|), t).(chunks := WithPlan(t.chunks, plan, n))
  }

  function Checkpointed(item: ChunkItem): ChunkItem {
    if item.status.ChunkPending? then item.(scheduled := true) else item
  }

  datatype Reconciled = Reconciled(ok: bool, table: Table, intent: Option<Event>)

  /** ReconcileCompletion. The transaction can still be refused here, by a job
      whose scheduling failed; that is an error. */
  function Reconcile(t: Table, jobId: string, now: int): Reconciled {
    if t.job.None? then Reconciled(false, t, None)
    else if t.job.value.status in {COMPLETED, FAILED, REJECTED} then Reconciled(true, t, PendingIntent(t))
    else if !Due(t.job.value) then Reconciled(true, t, None)
    else match Finish(t, jobId, t.job.value, now)
      case Some(t') => Reconciled(true, t', Some(IntentFor(jobId, t.job.value, now).event))
      case None => Reconciled(false, t, None)
  }

  datatype Closed = Closed(ok: bool, table: Table)

  function CompleteThenReconcile(t: Table, jobId: string, c: nat, attempt: int, counts: Counts, now: int): Closed {
    if ChunkIs(t, c, {ChunkCompleted}) then Closed(true, t)
    else match Complete(t, c, attempt, counts)
      case Some(t') => var r := Reconcile(t', jobId, now); Closed(r.ok, r.table)
      case None => Closed(false, t)
  }

  function FailThenReconcile(t: Table, jobId: string, c: nat, attempt: int, maxReceiveCount: int, now: int): Closed {
    if attempt < maxReceiveCount then
      match Retry(t, c, attempt)
      case Some(t') => Closed(true, t')
      case None => Closed(ChunkIs(t, c, {ChunkCompleted, ChunkFailed}), t)
    else if ChunkIs(t, c, {ChunkCompleted, ChunkFailed}) then Closed(true, t)
    else match Fail(t, c, attempt)
      case Some(t') => var r := Reconcile(t', jobId, now); Closed(r.ok, r.table)
      case None => Closed(false, t)
  }

  // ---- What they come to, in the items' own fields ----------------------------------------

  // This attempt holds the chunk, and the job still counts chunks.
  predicate MayEnd(t: Table, c: nat, attempt: int) { Holds(t, c, attempt) && JobOpen(t) }

  // All chunks of a sealed manifest are accounted for.
  predicate AllCounted(j: JobItem) {
    j.manifestSealed && (j.expectedChunks.None? || j.completedChunks + j.failedChunks >= j.expectedChunks.value)
  }

  /** The job with figures j has ended, and the intent says so. */
  predicate FinishedAs(t': Table, jobId: string, j: JobItem, now: int) {
    && t'.job == Some(j.(status := if j.failedChunks > 0 then FAILED else COMPLETED))
    && t'.intent.Some? && t'.intent.value.pending
    && var e := t'.intent.value.event;
      && e.id == EventId(jobId, 1) && e.status == t'.job.value.status && e.completedAt == now
      && e.counts == j.totals && (e.countsComplete <==> j.failedChunks == 0)
      && (e.result == if j.failedChunks > 0 then NoResult
                      else if j.totals.recordsRejected > 0 then WithRejections else Success)
  }

  /** A chunk has ended with this item, and the job has figures j: if it was the last
      one the job ends with it, unless an intent already stands in the way. */
  predicate ChunkEnded(t: Table, t': Table, ok: bool, jobId: string, c: nat, item: ChunkItem, j: JobItem, now: int) {
    && t'.chunks == t.chunks[c := item]
    && (ok <==> !AllCounted(j) || t.intent.None?)
    && if ok && AllCounted(j) then FinishedAs(t', jobId, j, now) else t'.job == Some(j) && t'.intent == t.intent
  }

  lemma CompletedTable(t: Table, jobId: string, c: nat, attempt: int, counts: Counts, now: int)
    requires MayEnd(t, c, attempt)
    ensures var j, r := t.job.value, CompleteThenReconcile(t, jobId, c, attempt, counts, now);
      ChunkEnded(t, r.table, r.ok, jobId, c, t.chunks[c].(status := ChunkCompleted, counts := counts),
        j.(status := RUNNING, completedChunks := j.completedChunks + 1, totals := Plus(j.totals, counts)), now)
  {
  }

  lemma FailedTable(t: Table, jobId: string, c: nat, attempt: int, maxReceiveCount: int, now: int)
    requires MayEnd(t, c, attempt) && attempt >= maxReceiveCount
    ensures var j, r := t.job.value, FailThenReconcile(t, jobId, c, attempt, maxReceiveCount, now);
      ChunkEnded(t, r.table, r.ok, jobId, c, t.chunks[c].(status := ChunkFailed),
        j.(status := RUNNING, failedChunks := j.failedChunks + 1), now)
  {
  }

  // ---- The operations -------------------------------------------------------------------

  class LedgerPartition {
    var job: Option<JobItem>
    var chunks: map<nat, ChunkItem>
    var intent: Option<Intent>

    ghost function Contents(): Table
      reads this
    {
      Table(job, chunks, intent)
    }

    constructor ()
      ensures Contents() == EMPTY
    {
      job, chunks, intent := None, map[], None;
    }

    // Runs a conditional write that has already been worked out.
    method Write(written: Option<Table>) returns (ok: bool)
      modifies this
      ensures ok == written.Some? && Contents() == OrSame(written, old(Contents()))
    {
      ok := written.Some?;
      if written.Some? { job, chunks, intent := written.value.job, written.value.chunks, written.value.intent; }
    }

    /** leaseExpired: whether the stored admission lease has run out. */
    method Admit(fileId: string, leaseExpired: bool) returns (outcome: Acquisition)
      modifies this
      ensures chunks == old(chunks) && intent == old(intent)
      ensures job == if old(job).Some? then old(job) else Some(JobItem(fileId, RECEIVED, None, false, 0, 0, ZERO))
      ensures outcome.Acquired? <==>
          old(job).None? || (leaseExpired && StatusIn(old(Contents()), {RECEIVED, VALIDATING, PLANNING}))
      ensures outcome.AlreadyCompleted? <==> StatusIn(old(Contents()), {COMPLETED, FAILED, REJECTED})
    {
      var written := Write(PutReceived(Table(job, chunks, intent), fileId));
      if written { return Acquired; }
      var status := job.value.status;
      if status in {COMPLETED, FAILED, REJECTED} { return AlreadyCompleted; }
      if status in {RECEIVED, VALIDATING, PLANNING} && leaseExpired { return Acquired; }
      return Busy;
    }

    /** BeginValidation, BeginPlanning and RejectJob: the advance, or nothing when
        it was already made. */
    method AdvanceJob(from: set<Status>, to: Status, done: set<Status>) returns (ok: bool)
      modifies this
      ensures ok <==> StatusIn(old(Contents()), from + done)
      ensures chunks == old(chunks) && intent == old(intent)
      ensures job == if StatusIn(old(Contents()), from) then Some(old(job).value.(status := to)) else old(job)
    {
      ok := Write(Advance(Table(job, chunks, intent), from, to));
      if !ok { ok := job.Some? && job.value.status in done; }
    }

    method BeginValidation() returns (ok: bool)
      modifies this
      ensures ok <==> StatusIn(old(Contents()), {RECEIVED, VALIDATING, PLANNING})
      ensures chunks == old(chunks) && intent == old(intent)
      ensures job == if StatusIn(old(Contents()), {RECEIVED})
                     then Some(old(job).value.(status := VALIDATING)) else old(job)
    {
      ok := AdvanceJob({RECEIVED}, VALIDATING, {VALIDATING, PLANNING});
    }

    method BeginPlanning() returns (ok: bool)
      modifies this
      ensures ok <==> StatusIn(old(Contents()), {VALIDATING, PLANNING})
      ensures chunks == old(chunks) && intent == old(intent)
      ensures job == if StatusIn(old(Contents()), {VALIDATING})
                     then Some(old(job).value.(status := PLANNING)) else old(job)
    {
      ok := AdvanceJob({VALIDATING}, PLANNING, {PLANNING});
    }

    method RejectJob() returns (ok: bool)
      modifies this
      ensures ok <==> StatusIn(old(Contents()), {RECEIVED, VALIDATING, REJECTED})
      ensures chunks == old(chunks) && intent == old(intent)
      ensures job == if StatusIn(old(Contents()), {RECEIVED, VALIDATING})
                     then Some(old(job).value.(status := REJECTED)) else old(job)
    {
      ok := AdvanceJob({RECEIVED, VALIDATING}, REJECTED, {REJECTED});
    }

    /** On a refusal nothing is sealed, and the chunks before the first that
        disagrees have been written. */
    method Plan(fileId: string, plan: seq<Range>) returns (ok: bool)
      modifies this
      ensures ok <==> PlanFits(old(Contents()), fileId, plan)
      ensures ok ==> Contents() == PlannedTable(old(Contents()), fileId, plan)
      ensures !ok ==> exists n :: CutShort(old(Contents()), fileId, plan, n, Contents())
    {
      ghost var t := Contents();
      ok := Write(PutPlan(Table(job, chunks, intent), fileId, |plan|));
      if !ok {
        assert CutShort(t, fileId, plan, 0, Contents());
        return;
      }
      ok := WriteChunks(plan);
      if !ok {
        ghost var n :| StopsAt(t.chunks, plan, n) && chunks == WithPlan(t.chunks, plan, n);
        assert CutShort(t, fileId, plan, n, Contents());
        return;
      }
      // A manifest that is already sealed is not an error.
      var _ := Write(Seal(Table(job, chunks, intent), fileId, |plan|));
    }

    method WriteChunks(plan: seq<Range>) returns (ok: bool)
      modifies this
      ensures job == old(job) && intent == old(intent)
      ensures ok <==> forall c :: 0 <= c < |plan| ==> Agrees(old(chunks), plan, c)
      ensures ok ==> chunks == WithPlan(old(chunks), plan, |plan|)
      ensures !ok ==> exists n :: StopsAt(old(chunks), plan, n) && chunks == WithPlan(old(chunks), plan, n)
    {
      for next := 0 to |plan|
        invariant job == old(job) && intent == old(intent)
        invariant forall c :: 0 <= c < next ==> Agrees(old(chunks), plan, c)
        invariant chunks == WithPlan(old(chunks), plan, next)
      {
        var written := WriteNext(plan, next, old(chunks));
        if !written {
          assert StopsAt(old(chunks), plan, next);
          return false;
        }
      }
      return true;
    }

    method WriteNext(plan: seq<Range>, next: nat, ghost before: map<nat, ChunkItem>) returns (ok: bool)
      requires next < |plan| && chunks == WithPlan(before, plan, next)
      modifies this
      ensures job == old(job) && intent == old(intent)
      ensures ok <==> Agrees(before, plan, next)
      ensures chunks == if ok then WithPlan(before, plan, next + 1) else old(chunks)
    {
      ok := Write(PutChunk(Table(job, chunks, intent), next, plan[next]));
    }

    method MarkChunksScheduled(sent: seq<nat>)
      modifies this
      ensures job == old(job) && intent == old(intent) && chunks.Keys == old(chunks).Keys
      ensures forall c :: c in chunks ==>
          chunks[c] == if c in sent then Checkpointed(old(chunks)[c]) else old(chunks)[c]
    {
      for i := 0 to |sent|
        invariant job == old(job) && intent == old(intent) && chunks.Keys == old(chunks).Keys
        invariant forall c :: c in chunks ==>
            chunks[c] == if c in sent[..i] then Checkpointed(old(chunks)[c]) else old(chunks)[c]
      {
        var _ := Write(Checkpoint(Table(job, chunks, intent), sent[i]));
        assert sent[..i + 1] == sent[..i] + [sent[i]];
      }
    }

    method MarkScheduled() returns (ok: bool)
      modifies this
      ensures ok <==> Sealed(old(Contents())) && StatusIn(old(Contents()), {PENDING, PLANNING, SCHEDULED})
      ensures chunks == old(chunks) && intent == old(intent)
      ensures job == if ok then Some(old(job).value.(status := SCHEDULED)) else old(job)
    {
      ok := Write(MarkJob(Table(job, chunks, intent), SCHEDULED));
    }

    method MarkSchedulingFailed() returns (ok: bool)
      modifies this
      ensures ok <==> Sealed(old(Contents())) && StatusIn(old(Contents()), {PENDING, PLANNING, SCHEDULING_FAILED})
      ensures chunks == old(chunks) && intent == old(intent)
      ensures job == if ok then Some(old(job).value.(status := SCHEDULING_FAILED)) else old(job)
    {
      ok := Write(MarkJob(Table(job, chunks, intent), SCHEDULING_FAILED));
    }

    method StartChunk(c: nat, attempt: int) returns (ok: bool, alreadyCompleted: bool)
      modifies this
      ensures ok <==> ChunkIs(old(Contents()), c, {ChunkPending, ChunkRetryPending})
      ensures alreadyCompleted <==> ChunkIs(old(Contents()), c, {ChunkCompleted})
      ensures job == old(job) && intent == old(intent)
      ensures chunks == if !ok then old(chunks)
                        else old(chunks)[c := old(chunks)[c].(status := ChunkRunning, attempt := attempt)]
    {
      ok := Write(Start(Table(job, chunks, intent), c, attempt));
      alreadyCompleted := !ok && c in chunks && chunks[c].status.ChunkCompleted?;
    }

    method AcquireChunk(c: nat) returns (outcome: Acquisition)
      modifies this
      ensures outcome.Acquired? <==> ChunkIs(old(Contents()), c, {ChunkPending})
      ensures outcome.AlreadyCompleted? <==> ChunkIs(old(Contents()), c, {ChunkCompleted, ChunkFailed})
      ensures job == old(job) && intent == old(intent)
      ensures chunks == if !outcome.Acquired? then old(chunks)
                        else old(chunks)[c := old(chunks)[c].(status := ChunkRunning,
                                                              attempt := old(chunks)[c].attempt + 1)]
    {
      var ok := Write(Acquire(Table(job, chunks, intent), c));
      if ok { return Acquired; }
      if c in chunks && chunks[c].status in {ChunkCompleted, ChunkFailed} { return AlreadyCompleted; }
      return Busy;
    }

    method CompleteChunk(jobId: string, c: nat, attempt: int, counts: Counts, now: int) returns (ok: bool)
      modifies this
      ensures Closed(ok, Contents()) == CompleteThenReconcile(old(Contents()), jobId, c, attempt, counts, now)
      ensures ChunkIs(old(Contents()), c, {ChunkCompleted}) ==> ok && Contents() == old(Contents())
      ensures !ChunkIs(old(Contents()), c, {ChunkCompleted}) && !MayEnd(old(Contents()), c, attempt) ==>
          !ok && Contents() == old(Contents())
      ensures MayEnd(old(Contents()), c, attempt) ==>
        var item, j := old(chunks)[c].(status := ChunkCompleted, counts := counts), old(job).value;
        ChunkEnded(old(Contents()), Contents(), ok, jobId, c, item,
          j.(status := RUNNING, completedChunks := j.completedChunks + 1, totals := Plus(j.totals, counts)), now)
    {
      ghost var t := Contents();
      if MayEnd(t, c, attempt) { CompletedTable(t, jobId, c, attempt, counts, now); }
      if c in chunks && chunks[c].status.ChunkCompleted? { return true; }
      ok := Write(Complete(Table(job, chunks, intent), c, attempt, counts));
      if !ok { return false; }
      var event;
      ok, event := ReconcileCompletion(jobId, now);
    }

    method FailChunk(jobId: string, c: nat, attempt: int, maxReceiveCount: int, now: int) returns (ok: bool)
      modifies this
      ensures Closed(ok, Contents()) == FailThenReconcile(old(Contents()), jobId, c, attempt, maxReceiveCount, now)
      ensures ChunkIs(old(Contents()), c, {ChunkCompleted, ChunkFailed}) ==> ok && Contents() == old(Contents())
      ensures !ChunkIs(old(Contents()), c, {ChunkCompleted, ChunkFailed}) && !Holds(old(Contents()), c, attempt) ==>
          !ok && Contents() == old(Contents())
      ensures Holds(old(Contents()), c, attempt) && attempt < maxReceiveCount ==>
          ok && job == old(job) && intent == old(intent)
          && chunks == old(chunks)[c := old(chunks)[c].(status := ChunkRetryPending)]
      ensures Holds(old(Contents()), c, attempt) && attempt >= maxReceiveCount && !JobOpen(old(Contents())) ==>
          !ok && Contents() == old(Contents())
      ensures MayEnd(old(Contents()), c, attempt) && attempt >= maxReceiveCount ==>
        var item, j := old(chunks)[c].(status := ChunkFailed), old(job).value;
        ChunkEnded(old(Contents()), Contents(), ok, jobId, c, item,
          j.(status := RUNNING, failedChunks := j.failedChunks + 1), now)
    {
      ghost var t := Contents();
      if MayEnd(t, c, attempt) && attempt >= maxReceiveCount {
        FailedTable(t, jobId, c, attempt, maxReceiveCount, now);
      }
      if attempt < maxReceiveCount {
        ok := Write(Retry(Table(job, chunks, intent), c, attempt));
        if !ok { ok := c in chunks && chunks[c].status in {ChunkCompleted, ChunkFailed}; }
        return;
      }
      if c in chunks && chunks[c].status in {ChunkCompleted, ChunkFailed} { return true; }
      ok := Write(Fail(Table(job, chunks, intent), c, attempt));
      if !ok { return false; }
      var event;
      ok, event := ReconcileCompletion(jobId, now);
    }

    method ReconcileCompletion(jobId: string, now: int) returns (ok: bool, event: Option<Event>)
      modifies this
      ensures Reconciled(ok, Contents(), event) == Reconcile(old(Contents()), jobId, now)
      ensures chunks == old(chunks) && (old(job).None? ==> !ok)
      ensures old(job).Some? ==>
        var j := old(job).value;
        if j.status in {COMPLETED, FAILED, REJECTED} then
          ok && event == if old(intent).Some? && old(intent).value.pending then Some(old(intent).value.event) else None
        else if !AllCounted(j) then ok && event.None?
        else if j.status in {PENDING, SCHEDULED, RUNNING} && old(intent).None? then
          ok && FinishedAs(Contents(), jobId, j, now) && event == Some(intent.value.event)
        else !ok && event.None?
      ensures !(JobOpen(old(Contents())) && AllCounted(old(job).value) && old(intent).None?) ==>
          Contents() == old(Contents())
    {
      if job.None? { return false, None; }
      var read := job.value;
      if read.status in {COMPLETED, FAILED, REJECTED} { return true, PendingIntent(Table(job, chunks, intent)); }
      if !Due(read) { return true, None; }
      ok := Write(Finish(Table(job, chunks, intent), jobId, read, now));
      event := if ok then Some(IntentFor(jobId, read, now).event) else None;
    }

    method MarkIntentDelivered()
      modifies this
      ensures job == old(job) && chunks == old(chunks)
      ensures intent == if old(intent).Some? then Some(Intent(old(intent).value.event, false)) else None
    {
      var _ := Write(MarkDelivered(Table(job, chunks, intent)));
    }

    /** The worker's publication of the completion: sendOk is the queue's answer.
        Only an event that was sent is marked. */
    method PublishCompletion(jobId: string, now: int, queueConfigured: bool, sendOk: bool)
      returns (ok: bool, sent: Option<Event>)
      modifies this
      ensures var r := Reconcile(old(Contents()), jobId, now);
        && ok == (r.ok && (r.intent.None? || (queueConfigured && sendOk)))
        && sent == (if queueConfigured && sendOk then r.intent else None)
        && Contents() == if sent.Some? then OrSame(MarkDelivered(r.table), r.table) else r.table
    {
      var event;
      ok, event := ReconcileCompletion(jobId, now);
      if !ok || event.None? { return ok, None; }
      if !queueConfigured || !sendOk { return false, None; }
      MarkIntentDelivered();
      return true, event;
    }
  }

  /** When a plan is accepted, and what the job item is then. */
  lemma PlanFitsIff(t: Table, fileId: string, plan: seq<Range>)
    ensures PlanFits(t, fileId, plan) <==>
      && (t.job.Some? ==> t.job.value.fileId == fileId && t.job.value.expectedChunks in {None, Some(|plan|)})
      && forall c :: 0 <= c < |plan| && c in t.chunks ==> t.chunks[c].range == plan[c]
    ensures PlanFits(t, fileId, plan) ==>
      PlannedTable(t, fileId, plan).job == Some(
        if t.job.None? then JobItem(fileId, PENDING, Some(|plan|), true, 0, 0, ZERO)
        else if t.job.value.manifestSealed then t.job.value.(expectedChunks := Some(|plan|))
        else t.job.value.(expectedChunks := Some(|plan|), manifestSealed := true, status := PENDING))
  {
    if t.job.Some? ==> t.job.value.fileId == fileId && t.job.value.expectedChunks in {None, Some(|plan|)} {
      assert PutPlan(t, fileId, |plan|).Some?;
    }
    if PlanFits(t, fileId, plan) {
      forall c | 0 <= c < |plan| && c in t.chunks ensures t.chunks[c].range == plan[c] {
        assert Agrees(t.chunks, plan, c);
      }
    }
  }

  // ---- Repeating an operation ----------------------------------------------------------------

  lemma WithPlanTwice(chunks: map<nat, ChunkItem>, plan: seq<Range>, n: nat)
    requires n <= |plan|
    ensures WithPlan(WithPlan(chunks, plan, n), plan, |plan|) == WithPlan(chunks, plan, |plan|)
  {
  }

  /** A plan cut short after any of its writes and then repeated gives the table
      of a plan that ran through. */
  lemma PlanResumes(t: Table, fileId: string, plan: seq<Range>, n: nat, cut: Table)
    requires PlanFits(t, fileId, plan) && n <= |plan|
    requires cut == PutPlan(t, fileId, |plan|).value.(chunks := WithPlan(t.chunks, plan, n))
    ensures PlanFits(cut, fileId, plan) && PlannedTable(cut, fileId, plan) == PlannedTable(t, fileId, plan)
  {
    forall c | 0 <= c < |plan| ensures Agrees(cut.chunks, plan, c) { assert Agrees(t.chunks, plan, c); }
    WithPlanTwice(t.chunks, plan, n);
  }

  /** A plan repeated after it was sealed changes nothing. */
  lemma PlanRepeats(t: Table, fileId: string, plan: seq<Range>, done: Table)
    requires PlanFits(t, fileId, plan) && done == PlannedTable(t, fileId, plan)
    ensures PlanFits(done, fileId, plan) && PlannedTable(done, fileId, plan) == done
  {
    forall c | 0 <= c < |plan| ensures Agrees(done.chunks, plan, c) { assert Agrees(t.chunks, plan, c); }
    WithPlanTwice(t.chunks, plan, |plan|);
  }

  /** Two planners, the second with a plan of its own: it is accepted, and changes
      nothing, exactly when it is the first's. */
  lemma SecondPlanAcceptedIff(t: Table, fileId: string, first: seq<Range>, second: seq<Range>, done: Table)
    requires PlanFits(t, fileId, first) && done == PlannedTable(t, fileId, first)
    ensures PlanFits(done, fileId, second) <==> second == first
    ensures second == first ==> PlannedTable(done, fileId, second) == done
  {
    PlanRepeats(t, fileId, first, done);
    if PlanFits(done, fileId, second) {
      forall c | 0 <= c < |first| ensures second[c] == first[c] {
        assert Agrees(t.chunks, first, c) && Agrees(done.chunks, second, c);
      }
      assert second == first;
    }
  }

  /** A chunk once completed: completing it again succeeds and changes nothing,
      with whatever attempt and counts; failing it changes nothing either. */
  lemma CompletedChunkIsFinal(t: Table, jobId: string, c: nat, attempt: int, counts: Counts, now: int,
                              attempt': int, counts': Counts, maxReceiveCount: int, now': int)
    requires Complete(t, c, attempt, counts).Some?
    ensures var t' := CompleteThenReconcile(t, jobId, c, attempt, counts, now).table;
      && CompleteThenReconcile(t', jobId, c, attempt', counts', now') == Closed(true, t')
      && FailThenReconcile(t', jobId, c, attempt', maxReceiveCount, now') == Closed(true, t')
  {
  }

  /** A chunk once failed: failing it again succeeds and changes nothing, and no
      attempt can complete it. */
  lemma FailedChunkIsFinal(t: Table, jobId: string, c: nat, attempt: int, maxReceiveCount: int, now: int,
                           attempt': int, counts': Counts, maxReceiveCount': int, now': int)
    requires Fail(t, c, attempt).Some? && attempt >= maxReceiveCount
    ensures var t' := FailThenReconcile(t, jobId, c, attempt, maxReceiveCount, now).table;
      && FailThenReconcile(t', jobId, c, attempt', maxReceiveCount', now') == Closed(true, t')
      && CompleteThenReconcile(t', jobId, c, attempt', counts', now') == Closed(false, t')
  {
  }

  /** Until it is marked, every later reconciliation returns the same event,
      whatever the time; once marked, none. */
  lemma ReconcileRepeats(t: Table, jobId: string, now: int, now': int)
    requires Reconcile(t, jobId, now).intent.Some?
    ensures var r := Reconcile(t, jobId, now);
      && Reconcile(r.table, jobId, now') == r
      && MarkDelivered(r.table).Some?
      && Reconcile(MarkDelivered(r.table).value, jobId, now') == Reconciled(true, MarkDelivered(r.table).value, None)
  {
  }
}
