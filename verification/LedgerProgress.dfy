/** What can still be done: when the holder of a chunk can end it, and when a job can
    be finished. Possibility, not a promise that anybody does it. */
module LedgerProgress {
  import opened Bytes
  import opened States
  import opened Ledger
  import opened LedgerRuns
  import opened LedgerInvariants
  import opened LedgerHistory
  import opened LedgerOperations

  // ---- Ending a chunk ----------------------------------------------------------------

  // A held chunk's job is sealed and not finished.
  lemma HeldIsOpen(cfg: Config, steps: seq<Step>, s: Sys, c: nat, attempt: int)
    requires Reaches(cfg, steps, s) && Holds(s.table, c, attempt)
    ensures c in s.sent && (JobOpen(s.table) <==> !StatusIn(s.table, {SCHEDULING_FAILED}))
  {
    ReachableInv(cfg, steps, s);
    WorkTrueAfter(cfg, INITIAL, steps);
    IntentIffFinished(cfg, steps, s);
  }

  /** The attempt that holds a chunk can complete it exactly when the job's scheduling
      is not marked as failed. */
  lemma CanCompleteIff(cfg: Config, steps: seq<Step>, s: Sys, c: nat, attempt: int, counts: Counts)
    requires Reaches(cfg, steps, s) && Holds(s.table, c, attempt)
    ensures Next(cfg, s, Work(c, CompleteChunk(attempt, counts))).Some? <==> !StatusIn(s.table, {SCHEDULING_FAILED})
  {
    HeldIsOpen(cfg, steps, s, c, attempt);
  }

  /** At the last allowed attempt it can fail it exactly then, too. */
  lemma CanFailIff(cfg: Config, steps: seq<Step>, s: Sys, c: nat, attempt: int)
    requires Reaches(cfg, steps, s) && Holds(s.table, c, attempt) && attempt >= cfg.maxReceiveCount
    ensures Next(cfg, s, Work(c, FailChunk(attempt))).Some? <==> !StatusIn(s.table, {SCHEDULING_FAILED})
  {
    HeldIsOpen(cfg, steps, s, c, attempt);
  }

  // ---- Finishing a job -----------------------------------------------------------------

  // A sealed job that is neither finished nor given up.
  ghost predicate Unfinished(cfg: Config, s: Sys) {
    Inv(cfg, s) && PlannedBySomeone(s) && Sealed(s.table) && JobOpen(s.table)
  }

  lemma StepOn(cfg: Config, s: Sys, step: Step, s': Sys)
    requires Inv(cfg, s) && PlannedBySomeone(s) && Next(cfg, s, step) == Some(s')
    ensures Inv(cfg, s') && PlannedBySomeone(s')
  {
    InvKept(cfg, s, step);
    NextPlanned(cfg, s, step);
  }

  // An open chunk is sent.
  lemma SendOpen(cfg: Config, s: Sys, c: nat) returns (step: Step, s': Sys)
    requires Unfinished(cfg, s) && c in s.table.chunks
    ensures Next(cfg, s, step) == Some(s') && Unfinished(cfg, s') && c in s'.sent && s'.table == s.table
  {
    var p :| p in s.organizers && s.organizers[p].Planned?;
    step := Organize(p, SendChunk(c));
    s' := Next(cfg, s, step).value;
    StepOn(cfg, s, step, s');
  }

  // Then some attempt holds it.
  lemma HoldOpen(cfg: Config, s: Sys, c: nat) returns (steps: seq<Step>, s': Sys, attempt: int)
    requires Unfinished(cfg, s) && c in s.sent && c in s.table.chunks && !ChunkTerminal(s.table.chunks[c].status)
    ensures After(cfg, s, steps) == Some(s') && Unfinished(cfg, s') && c in s'.sent && Holds(s'.table, c, attempt)
    ensures s'.table.job == s.table.job
  {
    if s.table.chunks[c].status.ChunkRunning? {
      steps, s', attempt := [], s, s.table.chunks[c].attempt;
    } else {
      var step := Work(c, StartChunk(1));
      s', attempt := Next(cfg, s, step).value, 1;
      steps := [step];
      StepOn(cfg, s, step, s');
      AfterOne(cfg, s, step);
    }
  }

  // And it completes it: one open chunk fewer.
  lemma CompleteHeld(cfg: Config, s: Sys, c: nat, attempt: int) returns (step: Step, s': Sys)
    requires Unfinished(cfg, s) && c in s.sent && Holds(s.table, c, attempt)
    ensures Next(cfg, s, step) == Some(s') && Unfinished(cfg, s') && Expected(s'.table) == Expected(s.table)
    ensures s'.table.job.value.completedChunks == s.table.job.value.completedChunks + 1
    ensures s'.table.job.value.failedChunks == s.table.job.value.failedChunks
  {
    step := Work(c, CompleteChunk(attempt, ZERO));
    s' := Next(cfg, s, step).value;
    StepOn(cfg, s, step, s');
  }

  lemma EndOpenChunk(cfg: Config, s: Sys, c: nat) returns (steps: seq<Step>, s': Sys)
    requires Unfinished(cfg, s) && c in s.table.chunks && !ChunkTerminal(s.table.chunks[c].status)
    ensures After(cfg, s, steps) == Some(s') && Unfinished(cfg, s') && Expected(s'.table) == Expected(s.table)
    ensures s'.table.job.value.completedChunks == s.table.job.value.completedChunks + 1
    ensures s'.table.job.value.failedChunks == s.table.job.value.failedChunks
  {
    var send, s1 := SendOpen(cfg, s, c);
    var hold, s2, attempt := HoldOpen(cfg, s1, c);
    var complete;
    complete, s' := CompleteHeld(cfg, s2, c, attempt);
    AfterThen(cfg, s1, hold, complete);
    steps := [send] + (hold + [complete]);
    AfterCons(cfg, s, send, hold + [complete]);
  }

  // Every chunk has ended: a worker reads the job and closes it.
  lemma CloseDue(cfg: Config, s: Sys) returns (steps: seq<Step>)
    requires Unfinished(cfg, s)
    requires forall c :: c in s.table.chunks ==> ChunkTerminal(s.table.chunks[c].status)
    ensures After(cfg, s, steps).Some? && StatusIn(After(cfg, s, steps).value.table, {COMPLETED, FAILED})
  {
    var read, n := s.table.job.value, Expected(s.table);
    AllTerminal(s.table.chunks, n);
    var finish := Close(FinishJob(read, 0));
    var s1 := Next(cfg, s, Close(ReadJob)).value;
    steps := [Close(ReadJob)] + [finish];
    AfterCons(cfg, s, Close(ReadJob), [finish]);
    AfterOne(cfg, s1, finish);
  }

  /** A continuation after which the job is COMPLETED or FAILED. */
  ghost predicate Finishes(cfg: Config, s: Sys, more: seq<Step>) {
    After(cfg, s, more).Some? && StatusIn(After(cfg, s, more).value.table, {COMPLETED, FAILED})
  }

  lemma {:induction false} CanFinish(cfg: Config, s: Sys) returns (more: seq<Step>)
    requires Unfinished(cfg, s)
    ensures Finishes(cfg, s, more)
    decreases Expected(s.table) - s.table.job.value.completedChunks - s.table.job.value.failedChunks
  {
    CountBound(s.table.chunks, Expected(s.table));
    if c :| c in s.table.chunks && !ChunkTerminal(s.table.chunks[c].status) {
      var steps, s' := EndOpenChunk(cfg, s, c);
      CountBound(s'.table.chunks, Expected(s'.table));
      var rest := CanFinish(cfg, s');
      more := steps + rest;
      AfterConcat(cfg, s, steps, rest);
    } else {
      more := CloseDue(cfg, s);
    }
  }

  lemma {:induction false} AfterConcat(cfg: Config, s: Sys, a: seq<Step>, b: seq<Step>)
    requires After(cfg, s, a).Some?
    ensures After(cfg, s, a + b) == After(cfg, After(cfg, s, a).value, b)
    decreases a
  {
    if a == [] {
      assert [] + b == b;
    } else {
      AfterConcat(cfg, Next(cfg, s, a[0]).value, a[1..], b);
      assert a + b == [a[0]] + (a[1..] + b);
      AfterCons(cfg, s, a[0], a[1..] + b);
    }
  }

  /** From any reachable state with a sealed manifest, some continuation finishes the
      job exactly when its scheduling is not marked as failed. */
  lemma CanFinishIff(cfg: Config, steps: seq<Step>, s: Sys)
    requires Reaches(cfg, steps, s) && Sealed(s.table)
    ensures (exists more :: Finishes(cfg, s, more)) <==> !StatusIn(s.table, {SCHEDULING_FAILED})
  {
    ReachableInv(cfg, steps, s);
    if StatusIn(s.table, {SCHEDULING_FAILED}) {
      forall more | After(cfg, s, more).Some? ensures !Finishes(cfg, s, more) {
        OtherEndsAreSilent(cfg, steps, s, more);
      }
    } else if JobOpen(s.table) {
      SomeonePlanned(cfg, INITIAL, steps);
      var more := CanFinish(cfg, s);
    } else {
      assert Finishes(cfg, s, []);
    }
  }
}
