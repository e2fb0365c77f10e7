/** Every interleaving of organizers, workers, duplicates and crashes over one
    job's partition. A process that crashes simply takes no further step. */
module LedgerRuns {
  import opened Bytes
  import opened States
  import opened Ledger

  /** What does not vary in a run. admitted: the job came in through an S3 event
      and so through Admit; otherwise the plan's first write creates it. */
  datatype Config = Config(admitted: bool, jobId: string, fileId: string, maxReceiveCount: int)

  /** Where an organizer is in the handler: admission, validation, planning, then
      the writes of its plan (next is the chunk to write), then publication. */
  datatype Organizer =
    | Admitted
    | Validated
    | Ready
    | Writing(plan: seq<Range>, next: nat)
    | Planned(plan: seq<Range>)

  /** sent: chunks with a message in the queue. seen: job items some worker read
      in ReconcileCompletion and may still act on. held: events some worker got
      from the ledger. outbox: completion events sent, in order. */
  datatype Sys = Sys(
    table: Table,
    organizers: map<nat, Organizer>,
    sent: set<nat>,
    seen: set<JobItem>,
    held: set<Event>,
    outbox: seq<Event>)

  const INITIAL: Sys := Sys(EMPTY, map[], {}, {}, {}, [])

  /** Steps of organizer p. "See" steps are the re-reads with which the handler
      accepts that another execution did the write. */
  datatype OrganizerAct =
    | Admit | Reclaim
    | BeginValidation | SeeValidation
    | BeginPlanning | SeePlanning
    | ExplicitRequest
    | WritePlan(plan: seq<Range>) | WriteChunk
    | SealPlan | SeeSealed
    | SendChunk(c: nat) | CheckpointChunk(c: nat)
    | MarkScheduled | MarkSchedulingFailed

  /** Steps of some worker that a message for a chunk reached. */
  datatype WorkerAct =
    | StartChunk(attempt: int)
    | AcquireChunk
    | CompleteChunk(attempt: int, counts: Counts)
    | RetryChunk(attempt: int)
    | FailChunk(attempt: int)

  /** Steps of some worker that closes the job: ReconcileCompletion is the read
      and, any time later, the transaction. */
  datatype ClosingAct =
    | ReadJob
    | FinishJob(read: JobItem, now: int)
    | LoadIntent
    | SendEvent(event: Event)
    | MarkIntentDelivered(event: Event)

  datatype Step =
    | Organize(p: nat, organizer: OrganizerAct)
    | RejectJob
    | Work(c: nat, worker: WorkerAct)
    | Close(closing: ClosingAct)

  function Move(s: Sys, p: nat, o: Organizer): Sys { s.(organizers := s.organizers[p := o]) }

  // The ledger write of a step took effect and gave table t.
  function Wrote(s: Sys, t: Option<Table>): Option<Sys> {
    if t.Some? then Some(s.(table := t.value)) else None
  }

  function WroteAnd(s: Sys, t: Option<Table>, p: nat, o: Organizer): Option<Sys> {
    if t.Some? then Some(Move(s.(table := t.value), p, o)) else None
  }

  function OrganizerStep(cfg: Config, s: Sys, p: nat, act: OrganizerAct): Option<Sys> {
    var t := s.table;
    if p !in s.organizers then
      match act
      case Admit => if cfg.admitted then WroteAnd(s, PutReceived(t, cfg.fileId), p, Admitted) else None
      case Reclaim =>
        if cfg.admitted && StatusIn(t, {RECEIVED, VALIDATING, PLANNING})
        then Some(Move(s, p, Admitted)) else None
      case ExplicitRequest => if cfg.admitted then None else Some(Move(s, p, Ready))
      case _ => None
    else
      match (s.organizers[p], act)
      case (Admitted, BeginValidation) => WroteAnd(s, Advance(t, {RECEIVED}, VALIDATING), p, Validated)
      case (Admitted, SeeValidation) =>
        if StatusIn(t, {VALIDATING, PLANNING}) then Some(Move(s, p, Validated)) else None
      case (Validated, BeginPlanning) => WroteAnd(s, Advance(t, {VALIDATING}, PLANNING), p, Ready)
      case (Validated, SeePlanning) =>
        if StatusIn(t, {PLANNING}) then Some(Move(s, p, Ready)) else None
      case (Ready, WritePlan(plan)) => WroteAnd(s, PutPlan(t, cfg.fileId, |plan|), p, Writing(plan, 0))
      case (Writing(plan, next), WriteChunk) =>
        if next < |plan| then WroteAnd(s, PutChunk(t, next, plan[next]), p, Writing(plan, next + 1)) else None
      case (Writing(plan, next), SealPlan) =>
        if next == |plan| then WroteAnd(s, Seal(t, cfg.fileId, |plan|), p, Planned(plan)) else None
      case (Writing(plan, next), SeeSealed) =>
        if next == |plan| && Seal(t, cfg.fileId, |plan|).None? then Some(Move(s, p, Planned(plan))) else None
      case (Planned(_), SendChunk(c)) => if c in t.chunks then Some(s.(sent := s.sent + {c})) else None
      case (Planned(_), CheckpointChunk(c)) => if c in s.sent then Wrote(s, Checkpoint(t, c)) else None
      case (Planned(_), MarkScheduled) => Wrote(s, MarkJob(t, SCHEDULED))
      case (Planned(_), MarkSchedulingFailed) => Wrote(s, MarkJob(t, SCHEDULING_FAILED))
      case _ => None
  }

  function WorkerStep(cfg: Config, s: Sys, c: nat, act: WorkerAct): Option<Sys> {
    if c !in s.sent then None else
    match act
    case StartChunk(attempt) => Wrote(s, Start(s.table, c, attempt))
    case AcquireChunk => Wrote(s, Acquire(s.table, c))
    case CompleteChunk(attempt, counts) => Wrote(s, Complete(s.table, c, attempt, counts))
    case RetryChunk(attempt) => if attempt < cfg.maxReceiveCount then Wrote(s, Retry(s.table, c, attempt)) else None
    case FailChunk(attempt) => if attempt >= cfg.maxReceiveCount then Wrote(s, Fail(s.table, c, attempt)) else None
  }

  function ClosingStep(cfg: Config, s: Sys, act: ClosingAct): Option<Sys> {
    var t := s.table;
    match act
    case ReadJob => if t.job.Some? then Some(s.(seen := s.seen + {t.job.value})) else None
    case FinishJob(read, now) =>
      if read !in s.seen || !ReadyToFinish(read) then None else
      var t' := Finish(t, cfg.jobId, read, now);
      if t'.Some? then Some(s.(table := t'.value, held := s.held + {IntentFor(cfg.jobId, read, now).event})) else None
    case LoadIntent =>
      if PendingIntent(t).Some? then Some(s.(held := s.held + {PendingIntent(t).value})) else None
    case SendEvent(event) => if event in s.held then Some(s.(outbox := s.outbox + [event])) else None
    case MarkIntentDelivered(event) => if event in s.outbox then Wrote(s, MarkDelivered(t)) else None
  }

  /** One atomic step, or None where it is not possible. A conditional write whose
      condition fails changes nothing and is no step. */
  function Next(cfg: Config, s: Sys, step: Step): Option<Sys> {
    match step
    case Organize(p, act) => OrganizerStep(cfg, s, p, act)
    case RejectJob => Wrote(s, Advance(s.table, {RECEIVED, VALIDATING}, REJECTED))
    case Work(c, act) => WorkerStep(cfg, s, c, act)
    case Close(act) => ClosingStep(cfg, s, act)
  }

  // ---- Counting chunk items -------------------------------------------------------

  // Over the chunk numbers below n: those in a given state, and the counts of the
  // completed ones.
  function CountIn(chunks: map<nat, ChunkItem>, state: ChunkState, n: nat): nat {
    if n == 0 then 0
    else CountIn(chunks, state, n - 1) + (if n - 1 in chunks && chunks[n - 1].status == state then 1 else 0)
  }

  function SumCompleted(chunks: map<nat, ChunkItem>, n: nat): Counts {
    if n == 0 then ZERO
    else if n - 1 in chunks && chunks[n - 1].status.ChunkCompleted?
    then Plus(SumCompleted(chunks, n - 1), chunks[n - 1].counts)
    else SumCompleted(chunks, n - 1)
  }

  function One(b: bool): nat { if b then 1 else 0 }

  lemma {:induction false} CountAfter(chunks: map<nat, ChunkItem>, c: nat, item: ChunkItem, state: ChunkState, n: nat)
    ensures CountIn(chunks[c := item], state, n) + One(c < n && c in chunks && chunks[c].status == state)
         == CountIn(chunks, state, n) + One(c < n && item.status == state)
  {
    if n > 0 { CountAfter(chunks, c, item, state, n - 1); }
  }

  // A write that neither completes a chunk nor touches a completed one.
  lemma {:induction false} SumAfterOther(chunks: map<nat, ChunkItem>, c: nat, item: ChunkItem, n: nat)
    requires item.status.ChunkCompleted? <==> c in chunks && chunks[c].status.ChunkCompleted?
    requires item.status.ChunkCompleted? ==> chunks[c].counts == item.counts
    ensures SumCompleted(chunks[c := item], n) == SumCompleted(chunks, n)
  {
    if n > 0 { SumAfterOther(chunks, c, item, n - 1); }
  }

  lemma {:induction false} SumAfterComplete(chunks: map<nat, ChunkItem>, c: nat, item: ChunkItem, n: nat)
    requires c in chunks && !chunks[c].status.ChunkCompleted? && item.status.ChunkCompleted?
    ensures SumCompleted(chunks[c := item], n)
         == if c < n then Plus(SumCompleted(chunks, n), item.counts) else SumCompleted(chunks, n)
  {
    if n > 0 { SumAfterComplete(chunks, c, item, n - 1); }
  }

  lemma {:induction false} CountBound(chunks: map<nat, ChunkItem>, n: nat)
    ensures CountIn(chunks, ChunkCompleted, n) + CountIn(chunks, ChunkFailed, n) <= n
    ensures CountIn(chunks, ChunkCompleted, n) + CountIn(chunks, ChunkFailed, n) == n
        ==> forall c :: 0 <= c < n ==> c in chunks && ChunkTerminal(chunks[c].status)
    ensures CountIn(chunks, ChunkFailed, n) == 0 ==>
        forall c :: 0 <= c < n && c in chunks ==> !chunks[c].status.ChunkFailed?
    ensures CountIn(chunks, ChunkFailed, n) > 0 ==>
        exists c :: 0 <= c < n && c in chunks && chunks[c].status.ChunkFailed?
  {
    if n > 0 { CountBound(chunks, n - 1); }
  }
}
