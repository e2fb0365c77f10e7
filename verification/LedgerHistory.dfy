/** Whole runs: what holds at every point of one, and what one point says about
    every later one. */
module LedgerHistory {
  import opened Bytes
  import opened States
  import opened Ledger
  import opened LedgerRuns
  import opened LedgerInvariants

  /** The state after a run of steps, or None if some step is not possible. */
  function After(cfg: Config, s: Sys, steps: seq<Step>): Option<Sys>
    decreases steps
  {
    if steps == [] then Some(s)
    else if Next(cfg, s, steps[0]).None? then None
    else After(cfg, Next(cfg, s, steps[0]).value, steps[1..])
  }

  ghost predicate Reaches(cfg: Config, steps: seq<Step>, s: Sys) { After(cfg, INITIAL, steps) == Some(s) }

  lemma {:induction false} InvAfter(cfg: Config, s: Sys, steps: seq<Step>)
    requires Inv(cfg, s) && After(cfg, s, steps).Some?
    ensures Inv(cfg, After(cfg, s, steps).value)
    decreases steps
  {
    if steps != [] {
      InvKept(cfg, s, steps[0]);
      InvAfter(cfg, Next(cfg, s, steps[0]).value, steps[1..]);
    }
  }

  lemma ReachableInv(cfg: Config, steps: seq<Step>, s: Sys)
    requires Reaches(cfg, steps, s)
    ensures Inv(cfg, s)
  {
    InitialInv(cfg);
    InvAfter(cfg, INITIAL, steps);
  }

  // ---- Counting -----------------------------------------------------------------------

  predicate IsCompletion(step: Step, c: nat) { step.Work? && step.c == c && step.worker.CompleteChunk? }

  function Completions(steps: seq<Step>, c: nat): nat {
    if steps == [] then 0 else One(IsCompletion(steps[0], c)) + Completions(steps[1..], c)
  }

  // The counts reported by every completion that took effect in a run.
  function Reported(steps: seq<Step>): Counts {
    if steps == [] then ZERO else Plus(ReportedBy(steps[0]), Reported(steps[1..]))
  }

  function ReportedBy(step: Step): Counts {
    if step.Work? && step.worker.CompleteChunk? then step.worker.counts else ZERO
  }

  predicate IsComplete(t: Table, c: nat) { c in t.chunks && t.chunks[c].status.ChunkCompleted? }

  lemma NextCompletes(cfg: Config, s: Sys, step: Step, c: nat)
    requires Next(cfg, s, step).Some?
    ensures One(IsComplete(Next(cfg, s, step).value.table, c))
        == One(IsComplete(s.table, c)) + One(IsCompletion(step, c))
  {
    match step
    case Organize(p, act) => OrganizerCompletes(cfg, s, p, act, c);
    case RejectJob =>
    case Work(d, act) => WorkerCompletes(cfg, s, d, act, c);
    case Close(act) =>
  }

  lemma OrganizerCompletes(cfg: Config, s: Sys, p: nat, act: OrganizerAct, c: nat)
    requires OrganizerStep(cfg, s, p, act).Some?
    ensures IsComplete(OrganizerStep(cfg, s, p, act).value.table, c) == IsComplete(s.table, c)
  {
  }

  lemma WorkerCompletes(cfg: Config, s: Sys, d: nat, act: WorkerAct, c: nat)
    requires WorkerStep(cfg, s, d, act).Some?
    ensures One(IsComplete(WorkerStep(cfg, s, d, act).value.table, c))
        == One(IsComplete(s.table, c)) + One(d == c && act.CompleteChunk?)
  {
  }

  lemma {:induction false} CompletedAtMostOnce(cfg: Config, s: Sys, steps: seq<Step>, c: nat)
    requires After(cfg, s, steps).Some?
    ensures One(IsComplete(After(cfg, s, steps).value.table, c)) == One(IsComplete(s.table, c)) + Completions(steps, c)
    decreases steps
  {
    if steps != [] {
      NextCompletes(cfg, s, steps[0], c);
      CompletedAtMostOnce(cfg, Next(cfg, s, steps[0]).value, steps[1..], c);
    }
  }

  function Totals(t: Table): Counts { if t.job.Some? then t.job.value.totals else ZERO }

  lemma NextReports(cfg: Config, s: Sys, step: Step, s': Sys, added: Counts)
    requires Next(cfg, s, step) == Some(s') && added == ReportedBy(step)
    ensures Totals(s'.table) == Plus(Totals(s.table), added)
  {
    if step.Work? && step.worker.CompleteChunk? {
      WorkerReports(cfg, s, step.c, step.worker);
    } else {
      OthersReportNothing(cfg, s, step);
      PlusZero(Totals(s.table));
    }
  }

  lemma OthersReportNothing(cfg: Config, s: Sys, step: Step)
    requires Next(cfg, s, step).Some? && !(step.Work? && step.worker.CompleteChunk?)
    ensures Totals(Next(cfg, s, step).value.table) == Totals(s.table)
  {
    match step
    case Organize(p, act) => OrganizerReports(cfg, s, p, act);
    case RejectJob =>
    case Work(c, act) => WorkerReports(cfg, s, c, act);
    case Close(act) => ClosingReports(cfg, s, act);
  }

  lemma OrganizerReports(cfg: Config, s: Sys, p: nat, act: OrganizerAct)
    requires OrganizerStep(cfg, s, p, act).Some?
    ensures Totals(OrganizerStep(cfg, s, p, act).value.table) == Totals(s.table)
  {
  }

  lemma WorkerReports(cfg: Config, s: Sys, c: nat, act: WorkerAct)
    requires WorkerStep(cfg, s, c, act).Some?
    ensures Totals(WorkerStep(cfg, s, c, act).value.table)
        == if act.CompleteChunk? then Plus(Totals(s.table), act.counts) else Totals(s.table)
  {
  }

  lemma ClosingReports(cfg: Config, s: Sys, act: ClosingAct)
    requires ClosingStep(cfg, s, act).Some?
    ensures Totals(ClosingStep(cfg, s, act).value.table) == Totals(s.table)
  {
  }

  lemma PlusZero(a: Counts)
    ensures Plus(a, ZERO) == a == Plus(ZERO, a)
  {
  }

  lemma PlusAssociates(a: Counts, b: Counts, c: Counts)
    ensures Plus(Plus(a, b), c) == Plus(a, Plus(b, c))
  {
  }

  lemma {:induction false} ReportedAdds(cfg: Config, s: Sys, steps: seq<Step>)
    requires After(cfg, s, steps).Some?
    ensures Totals(After(cfg, s, steps).value.table) == Plus(Totals(s.table), Reported(steps))
    decreases steps
  {
    if steps == [] {
      PlusZero(Totals(s.table));
    } else {
      var u := Next(cfg, s, steps[0]).value;
      NextReports(cfg, s, steps[0], u, ReportedBy(steps[0]));
      ReportedAdds(cfg, u, steps[1..]);
      PlusAssociates(Totals(s.table), ReportedBy(steps[0]), Reported(steps[1..]));
    }
  }

  /** In any run, whatever the duplicates, retries, stale attempts and crashes: a
      chunk's completion takes effect at most once, the job's two counters are the
      numbers of COMPLETED and FAILED chunk items, and its totals are both the sum
      over the COMPLETED items and the sum of everything reported. */
  lemma NothingCountedTwice(cfg: Config, steps: seq<Step>, s: Sys)
    requires Reaches(cfg, steps, s)
    ensures forall c :: Completions(steps, c) == One(IsComplete(s.table, c))
    ensures s.table.job.Some? ==>
      && s.table.job.value.completedChunks == CountIn(s.table.chunks, ChunkCompleted, Expected(s.table))
      && s.table.job.value.failedChunks == CountIn(s.table.chunks, ChunkFailed, Expected(s.table))
      && s.table.job.value.totals == SumCompleted(s.table.chunks, Expected(s.table)) == Reported(steps)
    ensures forall c :: c in s.table.chunks ==> c < Expected(s.table)
  {
    ReachableInv(cfg, steps, s);
    ReportedAdds(cfg, INITIAL, steps);
    forall c ensures Completions(steps, c) == One(IsComplete(s.table, c)) {
      CompletedAtMostOnce(cfg, INITIAL, steps, c);
    }
  }

  // ---- Attempts and checkpoints -----------------------------------------------------------

  // The attempt that holds chunk c after a run, by the starts in it.
  function CurrentAttempt(steps: seq<Step>, c: nat): int {
    if steps == [] then 0 else
    var before, last := CurrentAttempt(steps[..|steps| - 1], c), steps[|steps| - 1];
    if !last.Work? || last.c != c then before
    else if last.worker.StartChunk? then last.worker.attempt
    else if last.worker.AcquireChunk? then before + 1
    else before
  }

  /** What the work on chunks has left: a chunk is checkpointed, and is worked on,
      only once its message is in the queue; it fails only at the last attempt. */
  ghost predicate WorkTrue(cfg: Config, s: Sys) {
    forall c :: c in s.table.chunks ==>
      var item := s.table.chunks[c];
      && (item.scheduled ==> c in s.sent)
      && (!item.status.ChunkPending? ==> c in s.sent)
      && (item.status.ChunkPending? ==> item.attempt == 0)
      && (item.status.ChunkFailed? ==> item.attempt >= cfg.maxReceiveCount)
  }

  lemma NextWorkTrue(cfg: Config, s: Sys, step: Step)
    requires WorkTrue(cfg, s) && Next(cfg, s, step).Some?
    ensures WorkTrue(cfg, Next(cfg, s, step).value)
  {
    match step
    case Organize(p, act) => OrganizerWorkTrue(cfg, s, p, act);
    case RejectJob =>
    case Work(c, act) => WorkerWorkTrue(cfg, s, c, act);
    case Close(act) =>
  }

  lemma OrganizerWorkTrue(cfg: Config, s: Sys, p: nat, act: OrganizerAct)
    requires WorkTrue(cfg, s) && OrganizerStep(cfg, s, p, act).Some?
    ensures WorkTrue(cfg, OrganizerStep(cfg, s, p, act).value)
  {
  }

  lemma WorkerWorkTrue(cfg: Config, s: Sys, c: nat, act: WorkerAct)
    requires WorkTrue(cfg, s) && WorkerStep(cfg, s, c, act).Some?
    ensures WorkTrue(cfg, WorkerStep(cfg, s, c, act).value)
  {
  }

  lemma {:induction false} WorkTrueAfter(cfg: Config, s: Sys, steps: seq<Step>)
    requires WorkTrue(cfg, s) && After(cfg, s, steps).Some?
    ensures WorkTrue(cfg, After(cfg, s, steps).value)
    decreases steps
  {
    if steps != [] {
      NextWorkTrue(cfg, s, steps[0]);
      WorkTrueAfter(cfg, Next(cfg, s, steps[0]).value, steps[1..]);
    }
  }

  lemma {:induction false} AfterSnoc(cfg: Config, s: Sys, steps: seq<Step>, last: Step)
    requires After(cfg, s, steps + [last]).Some?
    ensures After(cfg, s, steps).Some? && Next(cfg, After(cfg, s, steps).value, last) == After(cfg, s, steps + [last])
    decreases steps
  {
    if steps == [] {
      assert [] + [last] == [last] && [last][1..] == [];
    } else {
      assert (steps + [last])[1..] == steps[1..] + [last];
      AfterSnoc(cfg, Next(cfg, s, steps[0]).value, steps[1..], last);
    }
  }

  // The attempt a chunk item shows; 0 while there is none.
  function AttemptOf(t: Table, c: nat): int { if c in t.chunks then t.chunks[c].attempt else 0 }

  lemma NextAttempt(cfg: Config, s: Sys, step: Step, c: nat)
    requires Next(cfg, s, step).Some?
    ensures AttemptOf(Next(cfg, s, step).value.table, c)
         == if step.Work? && step.c == c && step.worker.StartChunk? then step.worker.attempt
            else if step.Work? && step.c == c && step.worker.AcquireChunk? then AttemptOf(s.table, c) + 1
            else AttemptOf(s.table, c)
  {
    match step
    case Organize(p, act) => OrganizerAttempt(cfg, s, p, act, c);
    case RejectJob =>
    case Work(d, act) => WorkerAttempt(cfg, s, d, act, c);
    case Close(act) =>
  }

  lemma OrganizerAttempt(cfg: Config, s: Sys, p: nat, act: OrganizerAct, c: nat)
    requires OrganizerStep(cfg, s, p, act).Some?
    ensures AttemptOf(OrganizerStep(cfg, s, p, act).value.table, c) == AttemptOf(s.table, c)
  {
  }

  lemma WorkerAttempt(cfg: Config, s: Sys, d: nat, act: WorkerAct, c: nat)
    requires WorkerStep(cfg, s, d, act).Some?
    ensures AttemptOf(WorkerStep(cfg, s, d, act).value.table, c)
         == if d == c && act.StartChunk? then act.attempt
            else if d == c && act.AcquireChunk? then AttemptOf(s.table, c) + 1
            else AttemptOf(s.table, c)
  {
  }

  lemma {:induction false} AttemptIsCurrent(cfg: Config, steps: seq<Step>, s: Sys, c: nat)
    requires Reaches(cfg, steps, s)
    ensures AttemptOf(s.table, c) == CurrentAttempt(steps, c)
    decreases steps
  {
    if steps != [] {
      var front, last := steps[..|steps| - 1], steps[|steps| - 1];
      assert steps == front + [last];
      AfterSnoc(cfg, INITIAL, front, last);
      var u := After(cfg, INITIAL, front).value;
      AttemptIsCurrent(cfg, front, u, c);
      NextAttempt(cfg, u, last, c);
    }
  }

  predicate EndsAttempt(act: WorkerAct, attempt: int) {
    act == RetryChunk(attempt) || act == FailChunk(attempt) || (act.CompleteChunk? && act.attempt == attempt)
  }

  /** Only the attempt that started a chunk last can complete, retry or fail it;
      work on a chunk, and its checkpoint, come only after its message was sent;
      and a chunk is FAILED only at the last allowed attempt. */
  lemma StaleAttemptsRefused(cfg: Config, steps: seq<Step>, s: Sys, c: nat, act: WorkerAct, attempt: int)
    requires Reaches(cfg, steps, s) && attempt != CurrentAttempt(steps, c)
    ensures EndsAttempt(act, attempt) ==> Next(cfg, s, Work(c, act)).None?
    ensures WorkTrue(cfg, s)
  {
    AttemptIsCurrent(cfg, steps, s, c);
    WorkTrueAfter(cfg, INITIAL, steps);
  }

  // ---- The tables of the two state machines ----------------------------------------------

  ghost predicate ChunksMove(t: Table, t': Table) {
    forall c :: c in t'.chunks ==>
      if c in t.chunks then ChunkMoves(t.chunks[c].status, t'.chunks[c].status) else t'.chunks[c].status.ChunkPending?
  }

  ghost predicate JobMovesOn(t: Table, t': Table) {
    t'.job.Some? ==>
      if t.job.Some? then JobMoves(Canonical(t.job.value.status), Canonical(t'.job.value.status))
      else t'.job.value.status in {RECEIVED, PENDING}
  }

  /** Every step made in the handler's order stutters or follows an edge of the
      job table and of the chunk table. */
  lemma NextFollowsTables(cfg: Config, s: Sys, step: Step)
    requires Inv(cfg, s) && Next(cfg, s, step).Some?
    ensures JobMovesOn(s.table, Next(cfg, s, step).value.table)
    ensures ChunksMove(s.table, Next(cfg, s, step).value.table)
  {
    match step
    case Organize(p, act) => OrganizerFollowsTables(cfg, s, p, act);
    case RejectJob =>
    case Work(c, act) => WorkerFollowsTables(cfg, s, c, act);
    case Close(act) => ClosingFollowsTables(cfg, s, act);
  }

  lemma ClosingFollowsTables(cfg: Config, s: Sys, act: ClosingAct)
    requires ClosingStep(cfg, s, act).Some?
    ensures JobMovesOn(s.table, ClosingStep(cfg, s, act).value.table)
    ensures ChunksMove(s.table, ClosingStep(cfg, s, act).value.table)
  {
  }

  lemma OrganizerFollowsTables(cfg: Config, s: Sys, p: nat, act: OrganizerAct)
    requires PlannersTrue(s) && Phases(cfg, s) && OrganizerStep(cfg, s, p, act).Some?
    ensures JobMovesOn(s.table, OrganizerStep(cfg, s, p, act).value.table)
    ensures ChunksMove(s.table, OrganizerStep(cfg, s, p, act).value.table)
  {
    if act.SealPlan? { assert s.organizers[p].Writing?; }
  }

  lemma WorkerFollowsTables(cfg: Config, s: Sys, c: nat, act: WorkerAct)
    requires Sealed(s.table) && WorkerStep(cfg, s, c, act).Some?
    ensures JobMovesOn(s.table, WorkerStep(cfg, s, c, act).value.table)
    ensures ChunksMove(s.table, WorkerStep(cfg, s, c, act).value.table)
  {
  }

  // ---- From one point of a run to any later one -------------------------------------------

  predicate JobEnded(t: Table) { t.job.Some? && JobTerminal(Canonical(t.job.value.status)) }

  /** What a later table keeps of an earlier one. */
  ghost predicate Keeps(t: Table, t': Table) {
    && ChunksGrow(t, t') && JobGrows(t, t')
    && (Sealed(t) ==> t'.chunks.Keys == t.chunks.Keys)
    && (forall c :: c in t.chunks && ChunkTerminal(t.chunks[c].status) ==>
         c in t'.chunks && t'.chunks[c] == t.chunks[c])
    && (forall c :: c in t.chunks && t.chunks[c].scheduled ==> c in t'.chunks && t'.chunks[c].scheduled)
    && (JobEnded(t) ==> t'.job == t.job)
    && (StatusIn(t, {SCHEDULED}) ==> StatusIn(t', {SCHEDULED, RUNNING, COMPLETED, FAILED}))
    && (StatusIn(t, {RUNNING}) ==> StatusIn(t', {RUNNING, COMPLETED, FAILED}))
    && (t.intent.Some? ==> t'.intent.Some? && t'.intent.value.event == t.intent.value.event
                           && (!t.intent.value.pending ==> !t'.intent.value.pending))
  }

  lemma KeepsTransitive(t: Table, u: Table, v: Table)
    requires Keeps(t, u) && Keeps(u, v)
    ensures Keeps(t, v)
  {
  }

  lemma NextKeeps(cfg: Config, s: Sys, step: Step)
    requires Inv(cfg, s) && Next(cfg, s, step).Some?
    ensures Keeps(s.table, Next(cfg, s, step).value.table)
  {
    match step
    case Organize(p, act) => OrganizerKeeps(cfg, s, p, act);
    case RejectJob => RejectKeeps(cfg, s);
    case Work(c, act) => WorkerKeeps(cfg, s, c, act);
    case Close(act) => ClosingKeeps(cfg, s, act);
  }

  lemma RejectKeeps(cfg: Config, s: Sys)
    requires Inv(cfg, s) && Next(cfg, s, RejectJob).Some?
    ensures Keeps(s.table, Next(cfg, s, RejectJob).value.table)
  {
  }

  lemma ClosingKeeps(cfg: Config, s: Sys, act: ClosingAct)
    requires ClosingStep(cfg, s, act).Some?
    ensures Keeps(s.table, ClosingStep(cfg, s, act).value.table)
  {
  }

  lemma OrganizerKeeps(cfg: Config, s: Sys, p: nat, act: OrganizerAct)
    requires PlannersTrue(s) && ManifestWhole(s.table) && Phases(cfg, s) && OrganizerStep(cfg, s, p, act).Some?
    ensures Keeps(s.table, OrganizerStep(cfg, s, p, act).value.table)
  {
    OrganizerGrows(cfg, s, p, act);
    if act.WriteChunk? { ChunkWriteKeeps(cfg, s, p); }
    else if act.CheckpointChunk? { CheckpointKeeps(cfg, s, p, act.c); }
    else if act.WritePlan? || act.SealPlan? { PlanWriteKeeps(cfg, s, p, act); }
    else if act.MarkScheduled? || act.MarkSchedulingFailed? { MarkKeeps(cfg, s, p, act); }
    else { AdmissionKeeps(cfg, s, p, act); }
  }

  lemma ChunkWriteKeeps(cfg: Config, s: Sys, p: nat)
    requires PlannersTrue(s) && ManifestWhole(s.table) && OrganizerStep(cfg, s, p, WriteChunk).Some?
    ensures Keeps(s.table, OrganizerStep(cfg, s, p, WriteChunk).value.table)
  {
  }

  lemma CheckpointKeeps(cfg: Config, s: Sys, p: nat, c: nat)
    requires OrganizerStep(cfg, s, p, CheckpointChunk(c)).Some?
    ensures Keeps(s.table, OrganizerStep(cfg, s, p, CheckpointChunk(c)).value.table)
  {
  }

  lemma PlanWriteKeeps(cfg: Config, s: Sys, p: nat, act: OrganizerAct)
    requires PlannersTrue(s) && ManifestWhole(s.table) && Phases(cfg, s) && OrganizerStep(cfg, s, p, act).Some?
    requires act.WritePlan? || act.SealPlan?
    ensures Keeps(s.table, OrganizerStep(cfg, s, p, act).value.table)
  {
  }

  lemma MarkKeeps(cfg: Config, s: Sys, p: nat, act: OrganizerAct)
    requires OrganizerStep(cfg, s, p, act).Some? && (act.MarkScheduled? || act.MarkSchedulingFailed?)
    ensures Keeps(s.table, OrganizerStep(cfg, s, p, act).value.table)
  {
  }

  lemma AdmissionKeeps(cfg: Config, s: Sys, p: nat, act: OrganizerAct)
    requires OrganizerStep(cfg, s, p, act).Some? && !act.WritePlan? && !act.SealPlan? && !act.WriteChunk?
    requires !act.CheckpointChunk? && !act.MarkScheduled? && !act.MarkSchedulingFailed?
    ensures Keeps(s.table, OrganizerStep(cfg, s, p, act).value.table)
  {
  }

  lemma WorkerKeeps(cfg: Config, s: Sys, c: nat, act: WorkerAct)
    requires Sealed(s.table) && WorkerStep(cfg, s, c, act).Some?
    ensures Keeps(s.table, WorkerStep(cfg, s, c, act).value.table)
  {
    WorkerGrows(cfg, s, c, act);
  }

  /** Over whole runs: a sealed manifest, every chunk's range, every terminal
      chunk, an ended job and the intent's event never change again; a RUNNING job
      is never set back to SCHEDULED, nor either of them to what came before. */
  lemma {:induction false} NothingUndone(cfg: Config, s: Sys, steps: seq<Step>)
    requires Inv(cfg, s) && After(cfg, s, steps).Some?
    ensures Keeps(s.table, After(cfg, s, steps).value.table)
    decreases steps
  {
    if steps != [] {
      var u := Next(cfg, s, steps[0]).value;
      NextKeeps(cfg, s, steps[0]);
      InvKept(cfg, s, steps[0]);
      NothingUndone(cfg, u, steps[1..]);
      KeepsTransitive(s.table, u.table, After(cfg, s, steps).value.table);
    }
  }

  // ---- The manifest, when planners race ----------------------------------------------------

  /** However many organizers plan the same job, with plans that may differ, and
      wherever each one stops: a sealed manifest is exactly the plan of every
      organizer that got past its plan, and no later point of the run changes a
      range, the number of chunks or the seal. */
  lemma ManifestIsOnePlan(cfg: Config, steps: seq<Step>, s: Sys, p: nat, plan: seq<Range>, more: seq<Step>)
    requires Reaches(cfg, steps, s) && p in s.organizers && s.organizers[p] == Planned(plan)
    requires After(cfg, s, more).Some?
    ensures forall q, other :: q in s.organizers && s.organizers[q] == Planned(other) ==> other == plan
    ensures var t := After(cfg, s, more).value.table;
      && Sealed(t) && t.job.value.expectedChunks == Some(|plan|)
      && (forall c :: c in t.chunks <==> 0 <= c < |plan|)
      && (forall c :: 0 <= c < |plan| ==> t.chunks[c].range == plan[c])
  {
    ReachableInv(cfg, steps, s);
    SealedIsPlan(cfg, s, p, plan);
    forall q, other | q in s.organizers && s.organizers[q] == Planned(other) ensures other == plan {
      SamePlan(cfg, s, p, plan, q, other);
    }
    NothingUndone(cfg, s, more);
  }

  lemma SealedIsPlan(cfg: Config, s: Sys, p: nat, plan: seq<Range>)
    requires Inv(cfg, s) && p in s.organizers && s.organizers[p] == Planned(plan)
    ensures Sealed(s.table) && s.table.job.value.expectedChunks == Some(|plan|)
    ensures forall c :: c in s.table.chunks <==> 0 <= c < |plan|
    ensures forall c :: 0 <= c < |plan| ==> s.table.chunks[c].range == plan[c]
  {
    assert Matches(s.table, plan, |plan|);
  }

  lemma SamePlan(cfg: Config, s: Sys, p: nat, plan: seq<Range>, q: nat, other: seq<Range>)
    requires Inv(cfg, s) && p in s.organizers && s.organizers[p] == Planned(plan) && q in s.organizers
    requires s.organizers[q] == Planned(other)
    ensures other == plan
  {
    SealedIsPlan(cfg, s, p, plan);
    SealedIsPlan(cfg, s, q, other);
  }

  /** A manifest is sealed only by an organizer that has written all of its plan. */
  lemma SealedByOne(cfg: Config, steps: seq<Step>, s: Sys)
    requires Reaches(cfg, steps, s) && Sealed(s.table)
    ensures exists p :: p in s.organizers && s.organizers[p].Planned?
  {
    SomeonePlanned(cfg, INITIAL, steps);
  }

  ghost predicate PlannedBySomeone(s: Sys) {
    Sealed(s.table) ==> exists p :: p in s.organizers && s.organizers[p].Planned?
  }

  lemma {:induction false} SomeonePlanned(cfg: Config, s: Sys, steps: seq<Step>)
    requires PlannedBySomeone(s) && After(cfg, s, steps).Some?
    ensures PlannedBySomeone(After(cfg, s, steps).value)
    decreases steps
  {
    if steps != [] {
      NextPlanned(cfg, s, steps[0]);
      SomeonePlanned(cfg, Next(cfg, s, steps[0]).value, steps[1..]);
    }
  }

  lemma NextPlanned(cfg: Config, s: Sys, step: Step)
    requires PlannedBySomeone(s) && Next(cfg, s, step).Some?
    ensures PlannedBySomeone(Next(cfg, s, step).value)
  {
    match step
    case Organize(p, act) => OrganizerPlanned(cfg, s, p, act);
    case RejectJob =>
    case Work(c, act) => WorkerPlanned(cfg, s, c, act);
    case Close(act) => ClosingPlanned(cfg, s, act);
  }

  // An organizer past its plan stays there.
  lemma OrganizerPlanned(cfg: Config, s: Sys, p: nat, act: OrganizerAct)
    requires PlannedBySomeone(s) && OrganizerStep(cfg, s, p, act).Some?
    ensures PlannedBySomeone(OrganizerStep(cfg, s, p, act).value)
  {
    var s' := OrganizerStep(cfg, s, p, act).value;
    if Sealed(s'.table) {
      if Sealed(s.table) {
        var q :| q in s.organizers && s.organizers[q].Planned?;
        assert q in s'.organizers && s'.organizers[q].Planned?;
      } else {
        assert p in s'.organizers && s'.organizers[p].Planned?;
      }
    }
  }

  lemma WorkerPlanned(cfg: Config, s: Sys, c: nat, act: WorkerAct)
    requires PlannedBySomeone(s) && WorkerStep(cfg, s, c, act).Some?
    ensures PlannedBySomeone(WorkerStep(cfg, s, c, act).value)
  {
  }

  lemma ClosingPlanned(cfg: Config, s: Sys, act: ClosingAct)
    requires PlannedBySomeone(s) && ClosingStep(cfg, s, act).Some?
    ensures PlannedBySomeone(ClosingStep(cfg, s, act).value)
  {
  }

  // ---- Completion -----------------------------------------------------------------------------

  /** At every point of every run: an intent exists exactly when the job is
      COMPLETED or FAILED. COMPLETED means that every chunk of the manifest is
      COMPLETED; FAILED that all are terminal and at least one FAILED. The event
      carries the exact sum over the completed chunks, and the result says whether
      a record was rejected. */
  lemma IntentIffFinished(cfg: Config, steps: seq<Step>, s: Sys)
    requires Reaches(cfg, steps, s)
    ensures s.table.intent.Some? <==> StatusIn(s.table, {COMPLETED, FAILED})
    ensures s.table.intent.Some? ==>
      var t, e := s.table, s.table.intent.value.event;
      && e.id == EventId(cfg.jobId, 1) && e.status == t.job.value.status
      && (forall c :: 0 <= c < Expected(t) ==> c in t.chunks && ChunkTerminal(t.chunks[c].status))
      && (e.status == COMPLETED <==> forall c :: 0 <= c < Expected(t) ==>
           c in t.chunks && t.chunks[c].status.ChunkCompleted?)
      && e.counts == SumCompleted(t.chunks, Expected(t)) && (e.countsComplete <==> e.status == COMPLETED)
      && e.result
         == if e.status == FAILED then NoResult else if e.counts.recordsRejected > 0 then WithRejections else Success
  {
    ReachableInv(cfg, steps, s);
    CountBound(s.table.chunks, Expected(s.table));
  }

  /** A read that shows every chunk counted is never out of date: at any later point the
      counters and the totals are those that were read. So the comparison in the
      transaction refuses no such read; what it does refuse is any other. */
  lemma DueReadsAreCurrent(cfg: Config, steps: seq<Step>, s: Sys, read: JobItem, now: int)
    requires Reaches(cfg, steps, s) && read in s.seen
    ensures Due(read) ==>
      && s.table.job.Some? && s.table.job.value.completedChunks == read.completedChunks
      && s.table.job.value.failedChunks == read.failedChunks && s.table.job.value.totals == read.totals
    ensures s.table.job.Some? && (s.table.job.value.completedChunks > read.completedChunks
                                  || s.table.job.value.failedChunks > read.failedChunks) ==>
        Finish(s.table, cfg.jobId, read, now).None?
  {
    ReachableInv(cfg, steps, s);
    CountBound(s.table.chunks, Expected(s.table));
  }

  /** An ended job that is not COMPLETED or FAILED (a rejected one, or one whose
      scheduling failed) never gets an intent, nor another counted chunk. */
  lemma OtherEndsAreSilent(cfg: Config, steps: seq<Step>, s: Sys, more: seq<Step>)
    requires Reaches(cfg, steps, s) && StatusIn(s.table, {REJECTED, SCHEDULING_FAILED})
    requires After(cfg, s, more).Some?
    ensures var s' := After(cfg, s, more).value; s'.table.job == s.table.job && s'.table.intent.None? && s'.outbox == []
  {
    ReachableInv(cfg, steps, s);
    InvAfter(cfg, s, more);
    NothingUndone(cfg, s, more);
    var s' := After(cfg, s, more).value;
    if s'.outbox != [] { SentIsStored(s', 0); }
  }

  lemma SentIsStored(s: Sys, i: nat)
    requires DeliveryTrue(s) && i < |s.outbox|
    ensures s.table.intent.Some? && s.table.intent.value.event == s.outbox[i]
  {
    assert s.outbox[i] in s.outbox;
  }

  // ---- Delivery -----------------------------------------------------------------------------------

  lemma {:induction false} OutboxGrows(cfg: Config, s: Sys, steps: seq<Step>)
    requires After(cfg, s, steps).Some?
    ensures s.outbox <= After(cfg, s, steps).value.outbox
    decreases steps
  {
    if steps != [] {
      NextOutbox(cfg, s, steps[0]);
      OutboxGrows(cfg, Next(cfg, s, steps[0]).value, steps[1..]);
    }
  }

  lemma NextOutbox(cfg: Config, s: Sys, step: Step)
    requires Next(cfg, s, step).Some?
    ensures s.outbox <= Next(cfg, s, step).value.outbox
  {
    match step
    case Organize(p, act) => OrganizerDelivery(cfg, s, p, act);
    case RejectJob =>
    case Work(c, act) => WorkerDelivery(cfg, s, c, act);
    case Close(act) =>
  }

  /** Over every run, with workers crashing between send and mark: all completion
      events sent for the job, at any two points, are one event with one id; an
      intent marked delivered was sent; one not marked can still be loaded and
      sent by any later worker. */
  lemma DeliveredAtLeastOnce(cfg: Config, steps: seq<Step>, s: Sys, more: seq<Step>)
    requires Reaches(cfg, steps, s) && After(cfg, s, more).Some?
    ensures var s' := After(cfg, s, more).value;
      forall i, j :: 0 <= i < |s.outbox| && 0 <= j < |s'.outbox| ==>
        && s.outbox[i] == s'.outbox[j] && s'.outbox[j].id == EventId(cfg.jobId, 1)
        && s'.table.intent.Some? && s'.table.intent.value.event == s'.outbox[j]
    ensures s.table.intent.Some? && !s.table.intent.value.pending ==> s.outbox != []
    ensures s.table.intent.Some? && s.table.intent.value.pending ==>
      var e := s.table.intent.value.event;
      After(cfg, s, [Close(LoadIntent), Close(SendEvent(e))]).Some?
  {
    ReachableInv(cfg, steps, s);
    InvAfter(cfg, s, more);
    OutboxGrows(cfg, s, more);
    var s' := After(cfg, s, more).value;
    forall j | 0 <= j < |s'.outbox| ensures s'.table.intent.Some? && s'.table.intent.value.event == s'.outbox[j] {
      SentIsStored(s', j);
    }
    if s.table.intent.Some? && s.table.intent.value.pending { LoadThenSend(cfg, s); }
  }

  lemma LoadThenSend(cfg: Config, s: Sys)
    requires s.table.intent.Some? && s.table.intent.value.pending
    ensures After(cfg, s, [Close(LoadIntent), Close(SendEvent(s.table.intent.value.event))]).Some?
  {
    var e := s.table.intent.value.event;
    var two := [Close(LoadIntent), Close(SendEvent(e))];
    var s1 := Next(cfg, s, two[0]).value;
    assert two[1..] == [Close(SendEvent(e))];
    var s2 := Next(cfg, s1, two[1]).value;
    assert two[1..][1..] == [];
    assert After(cfg, s2, []) == Some(s2);
    assert After(cfg, s1, two[1..]) == Some(s2);
  }

  // ---- Without the handler's order ------------------------------------------------------------------

  /** The write that seals is not guarded by the status: it follows the job table
      exactly when the job was being validated or planned. */
  lemma SealFollowsTableIff(t: Table, fileId: string, expected: nat)
    requires Seal(t, fileId, expected).Some?
    ensures JobMovesOn(t, Seal(t, fileId, expected).value) <==> StatusIn(t, {VALIDATING, PLANNING, PENDING})
  {
  }

  /** So a job rejected before its plan is written becomes PENDING again: only the
      order of the handler's calls rules this out. */
  lemma SealRevivesRejected(fileId: string)
    ensures var rejected := Advance(PutReceived(EMPTY, fileId).value, {RECEIVED, VALIDATING}, REJECTED).value;
      var sealed := Seal(PutPlan(rejected, fileId, 0).value, fileId, 0);
      && JobEnded(rejected) && sealed.Some? && StatusIn(sealed.value, {PENDING}) && !JobEnded(sealed.value)
  {
    var rejected := Advance(PutReceived(EMPTY, fileId).value, {RECEIVED, VALIDATING}, REJECTED).value;
    var planned := PutPlan(rejected, fileId, 0).value;
    assert Seal(planned, fileId, 0).Some?;
  }
}
