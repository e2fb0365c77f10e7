/** What every reachable state of the ledger satisfies. */
module LedgerInvariants {
  import opened Bytes
  import opened States
  import opened Ledger
  import opened LedgerRuns

  function Expected(t: Table): nat {
    if t.job.Some? && t.job.value.expectedChunks.Some? then t.job.value.expectedChunks.value else 0
  }

  /** The job's counters are the numbers of completed and failed chunk items, and
      each record total is the sum over the completed ones. */
  ghost predicate CountersExact(t: Table) {
    t.job.Some? ==>
      var j, n := t.job.value, Expected(t);
      && j.completedChunks == CountIn(t.chunks, ChunkCompleted, n)
      && j.failedChunks == CountIn(t.chunks, ChunkFailed, n)
      && j.totals == SumCompleted(t.chunks, n)
  }

  ghost predicate ChunksNumbered(t: Table) {
    forall c :: c in t.chunks ==> c < Expected(t)
  }

  ghost predicate Matches(t: Table, plan: seq<Range>, n: nat) {
    && n <= |plan| && t.job.Some? && t.job.value.expectedChunks == Some(|plan|)
    && forall i :: 0 <= i < n ==> i in t.chunks && t.chunks[i].range == plan[i]
  }

  ghost predicate PlannersTrue(s: Sys) {
    && (forall p :: p in s.organizers && s.organizers[p].Writing? ==>
         Matches(s.table, s.organizers[p].plan, s.organizers[p].next))
    && (forall p :: p in s.organizers && s.organizers[p].Planned? ==>
         Sealed(s.table) && Matches(s.table, s.organizers[p].plan, |s.organizers[p].plan|))
  }

  ghost predicate ManifestWhole(t: Table) {
    && (Sealed(t) ==> t.job.value.expectedChunks.Some? && forall c :: 0 <= c < Expected(t) ==> c in t.chunks)
    && (!Sealed(t) ==> forall c :: c in t.chunks ==> t.chunks[c].status.ChunkPending?)
  }

  predicate Past(o: Organizer) { !o.Admitted? && !o.Validated? }

  /** The phases of a job, as the order of the handler's calls makes them. */
  ghost predicate Phases(cfg: Config, s: Sys) {
    var t := s.table;
    && (t.job.Some? ==> t.job.value.fileId == cfg.fileId)
    && (Sealed(t) ==> StatusIn(t, {PENDING, SCHEDULED, SCHEDULING_FAILED, RUNNING, COMPLETED, FAILED}))
    && (t.job.Some? && !Sealed(t) ==>
         StatusIn(t, if cfg.admitted then {RECEIVED, VALIDATING, PLANNING, REJECTED} else {PENDING}))
    && (StatusIn(t, {RECEIVED, VALIDATING, REJECTED}) ==> t.job.value.expectedChunks.None?)
    && (cfg.admitted ==>
         forall p :: p in s.organizers && Past(s.organizers[p]) ==>
           t.job.Some? && !StatusIn(t, {RECEIVED, VALIDATING, REJECTED}))
    && (!cfg.admitted ==> forall p :: p in s.organizers ==> Past(s.organizers[p]))
    && (s.sent != {} ==> Sealed(t))
  }

  /** A completion intent exists exactly when the job is COMPLETED or FAILED; it
      states the job's own, final figures. */
  ghost predicate IntentTrue(cfg: Config, t: Table) {
    && (t.intent.Some? <==> StatusIn(t, {COMPLETED, FAILED}))
    && (t.intent.Some? ==>
          var j, e := t.job.value, t.intent.value.event;
          && e == IntentFor(cfg.jobId, j, e.completedAt).event && e.status == j.status
          && Sealed(t) && j.completedChunks + j.failedChunks == Expected(t))
  }

  /** What a worker has read of a job that has not moved since, as far as the two
      chunk counters tell, is still the whole truth. */
  ghost predicate ReadsStable(s: Sys) {
    forall r :: r in s.seen ==>
      && s.table.job.Some?
      && (var j := s.table.job.value;
          && r.completedChunks <= j.completedChunks && r.failedChunks <= j.failedChunks
          && (r.completedChunks == j.completedChunks ==> r.totals == j.totals)
          && (r.manifestSealed ==> j.manifestSealed && r.expectedChunks == j.expectedChunks))
  }

  /** Every event held or sent is the stored one; a mark follows a send. */
  ghost predicate DeliveryTrue(s: Sys) {
    && (forall e :: e in s.held ==> s.table.intent.Some? && e == s.table.intent.value.event)
    && (forall e :: e in s.outbox ==> e in s.held)
    && (s.table.intent.Some? && !s.table.intent.value.pending ==> s.outbox != [])
  }

  ghost predicate Inv(cfg: Config, s: Sys) {
    && CountersExact(s.table) && ChunksNumbered(s.table) && PlannersTrue(s) && ManifestWhole(s.table)
    && Phases(cfg, s) && IntentTrue(cfg, s.table) && ReadsStable(s) && DeliveryTrue(s)
  }

  lemma InitialInv(cfg: Config)
    ensures Inv(cfg, INITIAL)
  {
  }

  // ---- Each conditional write keeps the counters exact ------------------------------

  ghost predicate Counted(t: Table) { CountersExact(t) && ChunksNumbered(t) }

  lemma PutPlanCounted(t: Table, fileId: string, expected: nat)
    requires Counted(t) && PutPlan(t, fileId, expected).Some?
    ensures Counted(PutPlan(t, fileId, expected).value)
  {
    if Expected(t) != expected {
      NoChunks(t);
      EmptyCounts(t.chunks, Expected(t));
      EmptyCounts(t.chunks, expected);
    }
  }

  lemma PutChunkCounted(t: Table, c: nat, r: Range)
    requires Counted(t) && c < Expected(t) && PutChunk(t, c, r).Some?
    ensures Counted(PutChunk(t, c, r).value)
  {
    if c !in t.chunks { NewChunkWritten(t, c, NewChunk(r), Expected(t)); }
  }

  lemma CompleteCounted(t: Table, c: nat, attempt: int, counts: Counts)
    requires Counted(t) && Complete(t, c, attempt, counts).Some?
    ensures Counted(Complete(t, c, attempt, counts).value)
  {
    ChunkWritten(t, c, t.chunks[c].(status := ChunkCompleted, counts := counts), Expected(t));
  }

  lemma FailCounted(t: Table, c: nat, attempt: int)
    requires Counted(t) && Fail(t, c, attempt).Some?
    ensures Counted(Fail(t, c, attempt).value)
  {
    ChunkWritten(t, c, t.chunks[c].(status := ChunkFailed), Expected(t));
  }

  // Any other chunk write: the chunk was not terminal and is not now.
  lemma OtherCounted(t: Table, c: nat, item: ChunkItem)
    requires Counted(t) && c in t.chunks && !ChunkTerminal(t.chunks[c].status) && !ChunkTerminal(item.status)
    ensures Counted(WithChunk(t, c, item))
  {
    ChunkWritten(t, c, item, Expected(t));
  }

  lemma CountersKept(cfg: Config, s: Sys, step: Step)
    requires Counted(s.table) && PlannersTrue(s) && Next(cfg, s, step).Some?
    ensures Counted(Next(cfg, s, step).value.table)
  {
    match step
    case Organize(p, act) => OrganizerCounted(cfg, s, p, act);
    case RejectJob =>
    case Work(c, act) => WorkerCounted(cfg, s, c, act);
    case Close(act) =>
  }

  lemma OrganizerCounted(cfg: Config, s: Sys, p: nat, act: OrganizerAct)
    requires Counted(s.table) && PlannersTrue(s) && OrganizerStep(cfg, s, p, act).Some?
    ensures Counted(OrganizerStep(cfg, s, p, act).value.table)
  {
    var t := s.table;
    match act
    case WritePlan(plan) => PutPlanCounted(t, cfg.fileId, |plan|);
    case WriteChunk => PutChunkCounted(t, s.organizers[p].next, s.organizers[p].plan[s.organizers[p].next]);
    case CheckpointChunk(c) => OtherCounted(t, c, t.chunks[c].(scheduled := true));
    case _ =>
  }

  lemma WorkerCounted(cfg: Config, s: Sys, c: nat, act: WorkerAct)
    requires Counted(s.table) && WorkerStep(cfg, s, c, act).Some?
    ensures Counted(WorkerStep(cfg, s, c, act).value.table)
  {
    var t := s.table;
    match act
    case StartChunk(attempt) => OtherCounted(t, c, t.chunks[c].(status := ChunkRunning, attempt := attempt));
    case AcquireChunk => OtherCounted(t, c, t.chunks[c].(status := ChunkRunning, attempt := t.chunks[c].attempt + 1));
    case CompleteChunk(attempt, counts) => CompleteCounted(t, c, attempt, counts);
    case RetryChunk(attempt) => OtherCounted(t, c, t.chunks[c].(status := ChunkRetryPending));
    case FailChunk(attempt) => FailCounted(t, c, attempt);
  }

  lemma NoChunks(t: Table)
    requires ChunksNumbered(t) && Expected(t) == 0
    ensures t.chunks == map[]
  {
    assert forall c :: c !in t.chunks;
  }

  lemma NewChunkWritten(t: Table, c: nat, item: ChunkItem, n: nat)
    requires c !in t.chunks && item.status.ChunkPending?
    ensures CountIn(t.chunks[c := item], ChunkCompleted, n) == CountIn(t.chunks, ChunkCompleted, n)
    ensures CountIn(t.chunks[c := item], ChunkFailed, n) == CountIn(t.chunks, ChunkFailed, n)
    ensures SumCompleted(t.chunks[c := item], n) == SumCompleted(t.chunks, n)
  {
    CountAfter(t.chunks, c, item, ChunkCompleted, n);
    CountAfter(t.chunks, c, item, ChunkFailed, n);
    SumAfterOther(t.chunks, c, item, n);
  }

  lemma {:induction false} EmptyCounts(chunks: map<nat, ChunkItem>, n: nat)
    requires chunks == map[]
    ensures CountIn(chunks, ChunkCompleted, n) == CountIn(chunks, ChunkFailed, n) == 0
    ensures SumCompleted(chunks, n) == ZERO
  {
    if n > 0 { EmptyCounts(chunks, n - 1); }
  }

  lemma ChunkWritten(t: Table, c: nat, item: ChunkItem, n: nat)
    requires c in t.chunks && !ChunkTerminal(t.chunks[c].status) && c < n
    ensures CountIn(t.chunks[c := item], ChunkCompleted, n)
        == CountIn(t.chunks, ChunkCompleted, n) + One(item.status.ChunkCompleted?)
    ensures CountIn(t.chunks[c := item], ChunkFailed, n)
        == CountIn(t.chunks, ChunkFailed, n) + One(item.status.ChunkFailed?)
    ensures SumCompleted(t.chunks[c := item], n)
         == if item.status.ChunkCompleted? then Plus(SumCompleted(t.chunks, n), item.counts)
           else SumCompleted(t.chunks, n)
  {
    CountAfter(t.chunks, c, item, ChunkCompleted, n);
    CountAfter(t.chunks, c, item, ChunkFailed, n);
    if item.status.ChunkCompleted? {
      SumAfterComplete(t.chunks, c, item, n);
    } else {
      SumAfterOther(t.chunks, c, item, n);
    }
  }

  // ---- Nothing a plan has fixed is ever undone ---------------------------------------

  ghost predicate ChunksGrow(t: Table, t': Table) {
    forall c :: c in t.chunks ==> c in t'.chunks && t'.chunks[c].range == t.chunks[c].range
  }

  ghost predicate JobGrows(t: Table, t': Table) {
    t.job.Some? ==>
      && t'.job.Some? && t'.job.value.fileId == t.job.value.fileId
      && (t.job.value.expectedChunks.Some? ==> t'.job.value.expectedChunks == t.job.value.expectedChunks)
      && (t.job.value.manifestSealed ==> t'.job.value.manifestSealed)
  }

  /** Under every single step, whatever the order of calls. */
  lemma NextGrows(cfg: Config, s: Sys, step: Step)
    requires Next(cfg, s, step).Some?
    ensures ChunksGrow(s.table, Next(cfg, s, step).value.table) && JobGrows(s.table, Next(cfg, s, step).value.table)
  {
    match step
    case Organize(p, act) => OrganizerGrows(cfg, s, p, act);
    case RejectJob =>
    case Work(c, act) => WorkerGrows(cfg, s, c, act);
    case Close(act) =>
  }

  lemma OrganizerGrows(cfg: Config, s: Sys, p: nat, act: OrganizerAct)
    requires OrganizerStep(cfg, s, p, act).Some?
    ensures ChunksGrow(s.table, OrganizerStep(cfg, s, p, act).value.table)
    ensures JobGrows(s.table, OrganizerStep(cfg, s, p, act).value.table)
  {
  }

  lemma WorkerGrows(cfg: Config, s: Sys, c: nat, act: WorkerAct)
    requires WorkerStep(cfg, s, c, act).Some?
    ensures ChunksGrow(s.table, WorkerStep(cfg, s, c, act).value.table)
    ensures JobGrows(s.table, WorkerStep(cfg, s, c, act).value.table)
  {
  }

  lemma MatchesKept(t: Table, t': Table, plan: seq<Range>, n: nat)
    requires Matches(t, plan, n) && ChunksGrow(t, t') && JobGrows(t, t')
    ensures Matches(t', plan, n)
  {
  }

  lemma MatchesNext(t: Table, plan: seq<Range>, n: nat)
    requires Matches(t, plan, n) && n < |plan| && PutChunk(t, n, plan[n]).Some?
    ensures Matches(PutChunk(t, n, plan[n]).value, plan, n + 1)
  {
  }

  ghost predicate PlannerTrue(t: Table, o: Organizer) {
    && (o.Writing? ==> Matches(t, o.plan, o.next))
    && (o.Planned? ==> Sealed(t) && Matches(t, o.plan, |o.plan|))
  }

  lemma PlannerStays(t: Table, t': Table, o: Organizer)
    requires PlannerTrue(t, o) && ChunksGrow(t, t') && JobGrows(t, t')
    ensures PlannerTrue(t', o)
  {
    if o.Writing? { MatchesKept(t, t', o.plan, o.next); }
    if o.Planned? { MatchesKept(t, t', o.plan, |o.plan|); }
  }

  lemma PlannerMoves(cfg: Config, s: Sys, p: nat, act: OrganizerAct)
    requires PlannersTrue(s) && OrganizerStep(cfg, s, p, act).Some?
    requires s.table.job.Some? ==> s.table.job.value.fileId == cfg.fileId
    ensures var s' := OrganizerStep(cfg, s, p, act).value;
      p in s'.organizers && PlannerTrue(s'.table, s'.organizers[p]) && s'.organizers - {p} == s.organizers - {p}
  {
    var s' := OrganizerStep(cfg, s, p, act).value;
    NextGrows(cfg, s, Organize(p, act));
    if p in s.organizers {
      PlannerStays(s.table, s'.table, s.organizers[p]);
      if act.WriteChunk? { MatchesNext(s.table, s.organizers[p].plan, s.organizers[p].next); }
    }
  }

  lemma PlannersKept(cfg: Config, s: Sys, step: Step)
    requires PlannersTrue(s) && Next(cfg, s, step).Some?
    requires s.table.job.Some? ==> s.table.job.value.fileId == cfg.fileId
    ensures PlannersTrue(Next(cfg, s, step).value)
  {
    var s' := Next(cfg, s, step).value;
    NextGrows(cfg, s, step);
    if step.Organize? { PlannerMoves(cfg, s, step.p, step.organizer); }
    forall p | p in s'.organizers ensures PlannerTrue(s'.table, s'.organizers[p]) {
      if !(step.Organize? && step.p == p) {
        assert step.Organize? ==> p in s'.organizers - {step.p} && s.organizers[p] == (s.organizers - {step.p})[p];
        PlannerStays(s.table, s'.table, s.organizers[p]);
      }
    }
  }

  // ---- The other conjuncts -----------------------------------------------------------

  lemma ManifestKept(cfg: Config, s: Sys, step: Step)
    requires ManifestWhole(s.table) && PlannersTrue(s) && Phases(cfg, s) && ChunksNumbered(s.table)
    requires Next(cfg, s, step).Some?
    ensures ManifestWhole(Next(cfg, s, step).value.table)
  {
    match step
    case Organize(p, act) => OrganizerManifest(cfg, s, p, act);
    case RejectJob =>
    case Work(c, act) => WorkerManifest(cfg, s, c, act);
    case Close(act) =>
  }

  lemma OrganizerManifest(cfg: Config, s: Sys, p: nat, act: OrganizerAct)
    requires ManifestWhole(s.table) && PlannersTrue(s) && ChunksNumbered(s.table) && OrganizerStep(cfg, s, p, act).Some?
    ensures ManifestWhole(OrganizerStep(cfg, s, p, act).value.table)
  {
  }

  lemma WorkerManifest(cfg: Config, s: Sys, c: nat, act: WorkerAct)
    requires ManifestWhole(s.table) && Sealed(s.table) && WorkerStep(cfg, s, c, act).Some?
    ensures ManifestWhole(WorkerStep(cfg, s, c, act).value.table)
  {
  }

  lemma PhasesKept(cfg: Config, s: Sys, step: Step)
    requires Phases(cfg, s) && PlannersTrue(s) && Next(cfg, s, step).Some?
    ensures Phases(cfg, Next(cfg, s, step).value)
  {
    match step
    case Organize(p, act) => OrganizerPhases(cfg, s, p, act);
    case RejectJob =>
    case Work(c, act) => WorkerPhases(cfg, s, c, act);
    case Close(act) => ClosingPhases(cfg, s, act);
  }

  lemma OrganizerPhases(cfg: Config, s: Sys, p: nat, act: OrganizerAct)
    requires Phases(cfg, s) && PlannersTrue(s) && OrganizerStep(cfg, s, p, act).Some?
    ensures Phases(cfg, OrganizerStep(cfg, s, p, act).value)
  {
    if p !in s.organizers {
      EntryPhases(cfg, s, p, act);
    } else if Past(s.organizers[p]) {
      PlannerPhases(cfg, s, p, act);
    } else {
      AdmissionPhases(cfg, s, p, act);
    }
  }

  lemma EntryPhases(cfg: Config, s: Sys, p: nat, act: OrganizerAct)
    requires Phases(cfg, s) && p !in s.organizers && OrganizerStep(cfg, s, p, act).Some?
    ensures Phases(cfg, OrganizerStep(cfg, s, p, act).value)
  {
  }

  lemma AdmissionPhases(cfg: Config, s: Sys, p: nat, act: OrganizerAct)
    requires Phases(cfg, s) && p in s.organizers && !Past(s.organizers[p]) && OrganizerStep(cfg, s, p, act).Some?
    ensures Phases(cfg, OrganizerStep(cfg, s, p, act).value)
  {
  }

  lemma PlannerPhases(cfg: Config, s: Sys, p: nat, act: OrganizerAct)
    requires Phases(cfg, s) && PlannersTrue(s) && p in s.organizers && Past(s.organizers[p])
    requires OrganizerStep(cfg, s, p, act).Some?
    ensures Phases(cfg, OrganizerStep(cfg, s, p, act).value)
  {
  }

  lemma WorkerPhases(cfg: Config, s: Sys, c: nat, act: WorkerAct)
    requires Phases(cfg, s) && WorkerStep(cfg, s, c, act).Some?
    ensures Phases(cfg, WorkerStep(cfg, s, c, act).value)
  {
  }

  lemma ClosingPhases(cfg: Config, s: Sys, act: ClosingAct)
    requires Phases(cfg, s) && ClosingStep(cfg, s, act).Some?
    ensures Phases(cfg, ClosingStep(cfg, s, act).value)
  {
  }

  /** The transaction writes the intent of the job as it is now, not only as it
      was read: equal chunk counters mean equal record totals. */
  lemma FinishTrue(cfg: Config, s: Sys, read: JobItem, now: int)
    requires Inv(cfg, s) && ClosingStep(cfg, s, FinishJob(read, now)).Some?
    ensures IntentFor(cfg.jobId, read, now) == IntentFor(cfg.jobId, s.table.job.value, now)
    ensures IntentTrue(cfg, ClosingStep(cfg, s, FinishJob(read, now)).value.table)
  {
    CountBound(s.table.chunks, Expected(s.table));
  }

  lemma IntentKept(cfg: Config, s: Sys, step: Step)
    requires Inv(cfg, s) && Next(cfg, s, step).Some?
    ensures IntentTrue(cfg, Next(cfg, s, step).value.table)
  {
    match step
    case Organize(p, act) => OrganizerIntent(cfg, s, p, act);
    case RejectJob =>
    case Work(c, act) => WorkerIntent(cfg, s, c, act);
    case Close(act) => if act.FinishJob? { FinishTrue(cfg, s, act.read, act.now); }
  }

  lemma OrganizerIntent(cfg: Config, s: Sys, p: nat, act: OrganizerAct)
    requires IntentTrue(cfg, s.table) && ManifestWhole(s.table) && OrganizerStep(cfg, s, p, act).Some?
    ensures IntentTrue(cfg, OrganizerStep(cfg, s, p, act).value.table)
  {
  }

  lemma WorkerIntent(cfg: Config, s: Sys, c: nat, act: WorkerAct)
    requires IntentTrue(cfg, s.table) && WorkerStep(cfg, s, c, act).Some?
    ensures IntentTrue(cfg, WorkerStep(cfg, s, c, act).value.table)
  {
  }

  // Between a read and any later state: counters only rise, and totals move only
  // together with the completed counter.
  ghost predicate JobRises(t: Table, t': Table) {
    t.job.Some? ==>
      && t'.job.Some?
      && t.job.value.completedChunks <= t'.job.value.completedChunks
      && t.job.value.failedChunks <= t'.job.value.failedChunks
      && (t.job.value.completedChunks == t'.job.value.completedChunks ==> t.job.value.totals == t'.job.value.totals)
  }

  lemma NextRises(cfg: Config, s: Sys, step: Step)
    requires Next(cfg, s, step).Some?
    ensures JobRises(s.table, Next(cfg, s, step).value.table)
  {
    match step
    case Organize(p, act) => OrganizerRises(cfg, s, p, act);
    case RejectJob =>
    case Work(c, act) => WorkerRises(cfg, s, c, act);
    case Close(act) =>
  }

  lemma OrganizerRises(cfg: Config, s: Sys, p: nat, act: OrganizerAct)
    requires OrganizerStep(cfg, s, p, act).Some?
    ensures JobRises(s.table, OrganizerStep(cfg, s, p, act).value.table)
  {
  }

  lemma WorkerRises(cfg: Config, s: Sys, c: nat, act: WorkerAct)
    requires WorkerStep(cfg, s, c, act).Some?
    ensures JobRises(s.table, WorkerStep(cfg, s, c, act).value.table)
  {
  }

  lemma ReadsKept(cfg: Config, s: Sys, step: Step)
    requires ReadsStable(s) && ManifestWhole(s.table) && Next(cfg, s, step).Some?
    ensures ReadsStable(Next(cfg, s, step).value)
  {
    NextRises(cfg, s, step);
    NextGrows(cfg, s, step);
  }

  lemma DeliveryKept(cfg: Config, s: Sys, step: Step)
    requires DeliveryTrue(s) && Next(cfg, s, step).Some?
    ensures DeliveryTrue(Next(cfg, s, step).value)
  {
    match step
    case Organize(p, act) => OrganizerDelivery(cfg, s, p, act);
    case RejectJob =>
    case Work(c, act) => WorkerDelivery(cfg, s, c, act);
    case Close(act) => ClosingDelivery(cfg, s, act);
  }

  // Only the closing steps touch the intent, the events held or those sent.
  ghost predicate SameDelivery(s: Sys, s': Sys) {
    s'.table.intent == s.table.intent && s'.held == s.held && s'.outbox == s.outbox
  }

  lemma OrganizerDelivery(cfg: Config, s: Sys, p: nat, act: OrganizerAct)
    requires OrganizerStep(cfg, s, p, act).Some?
    ensures SameDelivery(s, OrganizerStep(cfg, s, p, act).value)
  {
  }

  lemma WorkerDelivery(cfg: Config, s: Sys, c: nat, act: WorkerAct)
    requires WorkerStep(cfg, s, c, act).Some?
    ensures SameDelivery(s, WorkerStep(cfg, s, c, act).value)
  {
  }

  lemma ClosingDelivery(cfg: Config, s: Sys, act: ClosingAct)
    requires DeliveryTrue(s) && ClosingStep(cfg, s, act).Some?
    ensures DeliveryTrue(ClosingStep(cfg, s, act).value)
  {
  }

  lemma InvKept(cfg: Config, s: Sys, step: Step)
    requires Inv(cfg, s) && Next(cfg, s, step).Some?
    ensures Inv(cfg, Next(cfg, s, step).value)
  {
    CountersKept(cfg, s, step);
    PlannersKept(cfg, s, step);
    ManifestKept(cfg, s, step);
    PhasesKept(cfg, s, step);
    IntentKept(cfg, s, step);
    ReadsKept(cfg, s, step);
    DeliveryKept(cfg, s, step);
  }
}
