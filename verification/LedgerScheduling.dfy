/** Scheduling never overwrites progress: what a counted chunk makes of the job, and
    what the organizer's late marks can then still do. */
module LedgerScheduling {
  import opened Bytes
  import opened States
  import opened Ledger
  import opened LedgerRuns
  import opened LedgerInvariants
  import opened LedgerHistory

  predicate AnyCounted(t: Table) {
    t.job.Some? && (t.job.value.completedChunks > 0 || t.job.value.failedChunks > 0)
  }

  /** A job is RUNNING exactly from its first counted chunk to its intent. */
  predicate RunsWhenCounted(t: Table) {
    && (AnyCounted(t) ==> Sealed(t))
    && (StatusIn(t, {RUNNING}) <==> AnyCounted(t) && t.intent.None?)
  }

  lemma NextRuns(cfg: Config, s: Sys, step: Step)
    requires Inv(cfg, s) && RunsWhenCounted(s.table) && Next(cfg, s, step).Some?
    ensures RunsWhenCounted(Next(cfg, s, step).value.table)
  {
    match step
    case Organize(p, act) => OrganizerRuns(cfg, s, p, act);
    case RejectJob =>
    case Work(c, act) => WorkerRuns(cfg, s, c, act);
    case Close(act) => ClosingRuns(cfg, s, act);
  }

  lemma OrganizerRuns(cfg: Config, s: Sys, p: nat, act: OrganizerAct)
    requires RunsWhenCounted(s.table) && IntentTrue(cfg, s.table) && OrganizerStep(cfg, s, p, act).Some?
    ensures RunsWhenCounted(OrganizerStep(cfg, s, p, act).value.table)
  {
  }

  lemma WorkerRuns(cfg: Config, s: Sys, c: nat, act: WorkerAct)
    requires RunsWhenCounted(s.table) && IntentTrue(cfg, s.table) && ManifestWhole(s.table)
    requires WorkerStep(cfg, s, c, act).Some?
    ensures RunsWhenCounted(WorkerStep(cfg, s, c, act).value.table)
  {
  }

  lemma ClosingRuns(cfg: Config, s: Sys, act: ClosingAct)
    requires RunsWhenCounted(s.table) && ClosingStep(cfg, s, act).Some?
    ensures RunsWhenCounted(ClosingStep(cfg, s, act).value.table)
  {
  }

  lemma {:induction false} RunsAfter(cfg: Config, s: Sys, steps: seq<Step>)
    requires Inv(cfg, s) && RunsWhenCounted(s.table) && After(cfg, s, steps).Some?
    ensures RunsWhenCounted(After(cfg, s, steps).value.table)
    decreases steps
  {
    if steps != [] {
      InvKept(cfg, s, steps[0]);
      NextRuns(cfg, s, steps[0]);
      RunsAfter(cfg, Next(cfg, s, steps[0]).value, steps[1..]);
    }
  }

  /** At every point of every run: a job is RUNNING exactly when some chunk has been
      counted and there is no intent yet. */
  lemma RunningIffCounted(cfg: Config, steps: seq<Step>, s: Sys)
    requires Reaches(cfg, steps, s)
    ensures StatusIn(s.table, {RUNNING}) <==> AnyCounted(s.table) && s.table.intent.None?
    ensures AnyCounted(s.table) ==> StatusIn(s.table, {RUNNING, COMPLETED, FAILED})
  {
    InitialInv(cfg);
    RunsAfter(cfg, INITIAL, steps);
    ReachableInv(cfg, steps, s);
  }

  /** Once a chunk is counted, neither mark changes the job, at any later point. */
  lemma MarksComeTooLate(cfg: Config, steps: seq<Step>, s: Sys, more: seq<Step>)
    requires Reaches(cfg, steps, s) && AnyCounted(s.table) && After(cfg, s, more).Some?
    ensures var t := After(cfg, s, more).value.table;
      MarkJob(t, SCHEDULED).None? && MarkJob(t, SCHEDULING_FAILED).None?
  {
    RunningIffCounted(cfg, steps, s);
    ReachableInv(cfg, steps, s);
    NothingUndone(cfg, s, more);
    KeptPastMarks(s.table, After(cfg, s, more).value.table);
  }

  lemma KeptPastMarks(t: Table, t': Table)
    requires Keeps(t, t') && StatusIn(t, {RUNNING, COMPLETED, FAILED})
    ensures StatusIn(t', {RUNNING, COMPLETED, FAILED})
  {
  }

  /** Of the two marks the first wins: after it the other is refused for good. */
  lemma FirstMarkWins(cfg: Config, steps: seq<Step>, s: Sys, more: seq<Step>)
    requires Reaches(cfg, steps, s) && After(cfg, s, more).Some?
    ensures var t := After(cfg, s, more).value.table;
      && (StatusIn(s.table, {SCHEDULED}) ==> MarkJob(t, SCHEDULING_FAILED).None?)
      && (StatusIn(s.table, {SCHEDULING_FAILED}) ==> MarkJob(t, SCHEDULED).None?)
  {
    ReachableInv(cfg, steps, s);
    NothingUndone(cfg, s, more);
  }

  lemma {:induction false} NoneCounted(chunks: map<nat, ChunkItem>, state: ChunkState, n: nat)
    requires CountIn(chunks, state, n) == 0
    ensures forall c :: 0 <= c < n && c in chunks ==> chunks[c].status != state
    ensures state.ChunkCompleted? ==> SumCompleted(chunks, n) == ZERO
  {
    if n > 0 { NoneCounted(chunks, state, n - 1); }
  }

  /** A job whose scheduling is marked as failed has counted nothing: no chunk of it
      has ended and no completion has been reported. */
  lemma FailedBeforeAnyCount(cfg: Config, steps: seq<Step>, s: Sys)
    requires Reaches(cfg, steps, s) && StatusIn(s.table, {SCHEDULING_FAILED})
    ensures s.table.job.value.completedChunks == s.table.job.value.failedChunks == 0
    ensures forall c :: c in s.table.chunks ==> !ChunkTerminal(s.table.chunks[c].status)
    ensures Reported(steps) == ZERO
  {
    RunningIffCounted(cfg, steps, s);
    NothingCountedTwice(cfg, steps, s);
    NoneEnded(s.table.chunks, Expected(s.table));
  }

  lemma NoneEnded(chunks: map<nat, ChunkItem>, n: nat)
    requires forall c :: c in chunks ==> c < n
    requires CountIn(chunks, ChunkCompleted, n) == CountIn(chunks, ChunkFailed, n) == 0
    ensures forall c :: c in chunks ==> !ChunkTerminal(chunks[c].status)
    ensures SumCompleted(chunks, n) == ZERO
  {
    NoneCounted(chunks, ChunkCompleted, n);
    NoneCounted(chunks, ChunkFailed, n);
  }
}
