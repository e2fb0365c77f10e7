/** The operations on a partition, run without interruption, as runs of atomic steps:
    what LedgerHistory says of all runs holds of them and between them. */
module LedgerOperations {
  import opened Bytes
  import opened States
  import opened Ledger
  import opened LedgerRuns
  import opened LedgerInvariants
  import opened LedgerHistory
  import opened Partition

  /** steps lead from s to table t. */
  ghost predicate LeadsTo(cfg: Config, s: Sys, steps: seq<Step>, t: Table) {
    After(cfg, s, steps).Some? && After(cfg, s, steps).value.table == t
  }

  lemma AfterOne(cfg: Config, s: Sys, step: Step)
    ensures After(cfg, s, [step]) == Next(cfg, s, step)
  {
    assert [step][1..] == [];
  }

  lemma AfterCons(cfg: Config, s: Sys, step: Step, steps: seq<Step>)
    ensures After(cfg, s, [step] + steps)
         == if Next(cfg, s, step).None? then None else After(cfg, Next(cfg, s, step).value, steps)
  {
    assert ([step] + steps)[1..] == steps;
  }

  /** Reconciliation is a read and, when the job is due, the transaction. */
  lemma ReconcileIsRun(cfg: Config, s: Sys, now: int) returns (steps: seq<Step>)
    ensures LeadsTo(cfg, s, steps, Reconcile(s.table, cfg.jobId, now).table)
  {
    if s.table.job.Some? && ReadyToFinish(s.table.job.value)
      && Finish(s.table, cfg.jobId, s.table.job.value, now).Some? {
      var read := s.table.job.value;
      steps := [Close(ReadJob)] + [Close(FinishJob(read, now))];
      AfterCons(cfg, s, Close(ReadJob), [Close(FinishJob(read, now))]);
      AfterOne(cfg, Next(cfg, s, Close(ReadJob)).value, Close(FinishJob(read, now)));
    } else {
      steps := [];
    }
  }

  lemma CompleteIsRun(cfg: Config, s: Sys, c: nat, attempt: int, counts: Counts, now: int) returns (steps: seq<Step>)
    requires c in s.sent
    ensures LeadsTo(cfg, s, steps, CompleteThenReconcile(s.table, cfg.jobId, c, attempt, counts, now).table)
  {
    var step := Work(c, CompleteChunk(attempt, counts));
    if Next(cfg, s, step).Some? {
      var rest := ReconcileIsRun(cfg, Next(cfg, s, step).value, now);
      steps := [step] + rest;
      AfterCons(cfg, s, step, rest);
    } else {
      steps := [];
    }
  }

  lemma FailIsRun(cfg: Config, s: Sys, c: nat, attempt: int, now: int) returns (steps: seq<Step>)
    requires c in s.sent
    ensures LeadsTo(cfg, s, steps, FailThenReconcile(s.table, cfg.jobId, c, attempt, cfg.maxReceiveCount, now).table)
  {
    var retry, fail := Work(c, RetryChunk(attempt)), Work(c, FailChunk(attempt));
    if Next(cfg, s, retry).Some? {
      steps := [retry];
      AfterOne(cfg, s, retry);
    } else if Next(cfg, s, fail).Some? {
      var rest := ReconcileIsRun(cfg, Next(cfg, s, fail).value, now);
      steps := [fail] + rest;
      AfterCons(cfg, s, fail, rest);
    } else {
      steps := [];
    }
  }

  lemma NextChunk(cfg: Config, s: Sys, p: nat, plan: seq<Range>, next: nat, chunks: map<nat, ChunkItem>)
    returns (u: Sys)
    requires p in s.organizers && s.organizers[p] == Writing(plan, next) && next < |plan|
    requires s.table.chunks == WithPlan(chunks, plan, next) && Agrees(chunks, plan, next)
    ensures Next(cfg, s, Organize(p, WriteChunk)) == Some(u) && p in u.organizers
    ensures u.organizers[p] == Writing(plan, next + 1)
    ensures u.table == s.table.(chunks := WithPlan(chunks, plan, next + 1))
  {
    u := Next(cfg, s, Organize(p, WriteChunk)).value;
  }

  // An organizer that has written chunks 0 to next-1 writes the others.
  lemma {:induction false} ChunksAreRun(cfg: Config, s: Sys, p: nat, plan: seq<Range>, next: nat,
                                        chunks: map<nat, ChunkItem>)
    returns (steps: seq<Step>)
    requires p in s.organizers && s.organizers[p] == Writing(plan, next) && next <= |plan|
    requires s.table.chunks == WithPlan(chunks, plan, next) && forall c :: 0 <= c < |plan| ==> Agrees(chunks, plan, c)
    ensures After(cfg, s, steps).Some?
    ensures var u := After(cfg, s, steps).value;
      && p in u.organizers && u.organizers[p] == Writing(plan, |plan|)
      && u.table == s.table.(chunks := WithPlan(chunks, plan, |plan|))
    decreases |plan| - next
  {
    if next == |plan| {
      steps := [];
    } else {
      var step := Organize(p, WriteChunk);
      var u := NextChunk(cfg, s, p, plan, next, chunks);
      var rest := ChunksAreRun(cfg, u, p, plan, next + 1, chunks);
      steps := [step] + rest;
      AfterCons(cfg, s, step, rest);
    }
  }

  /** A plan that is accepted is its first write, its chunks' and the seal, unless
      somebody else has sealed. */
  lemma PlanIsRun(cfg: Config, s: Sys, p: nat, plan: seq<Range>) returns (steps: seq<Step>)
    requires p in s.organizers && s.organizers[p] == Ready && PlanFits(s.table, cfg.fileId, plan)
    ensures LeadsTo(cfg, s, steps, PlannedTable(s.table, cfg.fileId, plan))
  {
    var write := Organize(p, WritePlan(plan));
    var u := Next(cfg, s, write).value;
    var chunkSteps := ChunksAreRun(cfg, u, p, plan, 0, s.table.chunks);
    var v := After(cfg, u, chunkSteps).value;
    var seal := Organize(p, if Seal(v.table, cfg.fileId, |plan|).Some? then SealPlan else SeeSealed);
    AfterThen(cfg, u, chunkSteps, seal);
    steps := [write] + (chunkSteps + [seal]);
    AfterCons(cfg, s, write, chunkSteps + [seal]);
  }

  lemma {:induction false} AfterThen(cfg: Config, s: Sys, steps: seq<Step>, last: Step)
    requires After(cfg, s, steps).Some?
    ensures After(cfg, s, steps + [last]) == Next(cfg, After(cfg, s, steps).value, last)
    decreases steps
  {
    if steps == [] {
      AfterOne(cfg, s, last);
      assert [] + [last] == [last];
    } else {
      AfterThen(cfg, Next(cfg, s, steps[0]).value, steps[1..], last);
      assert steps + [last] == [steps[0]] + (steps[1..] + [last]);
      AfterCons(cfg, s, steps[0], steps[1..] + [last]);
    }
  }

  lemma {:induction false} AllTerminal(chunks: map<nat, ChunkItem>, n: nat)
    requires forall d :: 0 <= d < n ==> d in chunks && ChunkTerminal(chunks[d].status)
    ensures CountIn(chunks, ChunkCompleted, n) + CountIn(chunks, ChunkFailed, n) == n
    ensures CountIn(chunks, ChunkFailed, n) == 0 <==> forall d :: 0 <= d < n ==> chunks[d].status.ChunkCompleted?
  {
    if n > 0 { AllTerminal(chunks, n - 1); }
  }

  predicate OthersComplete(t: Table, c: nat) {
    forall d :: d in t.chunks && d != c ==> t.chunks[d].status.ChunkCompleted?
  }

  /** The last open chunk of a sealed manifest finishes the job: after its
      completion the job is COMPLETED or FAILED, by the other chunks, and an intent
      waits for delivery. */
  lemma LastChunkFinishesJob(cfg: Config, steps: seq<Step>, s: Sys, c: nat, attempt: int, counts: Counts, now: int)
    requires Reaches(cfg, steps, s) && Complete(s.table, c, attempt, counts).Some?
    requires forall d :: d in s.table.chunks && d != c ==> ChunkTerminal(s.table.chunks[d].status)
    ensures var r := CompleteThenReconcile(s.table, cfg.jobId, c, attempt, counts, now);
      && r.ok && r.table.intent.Some? && r.table.intent.value.pending
      && StatusIn(r.table, if OthersComplete(s.table, c) then {COMPLETED} else {FAILED})
  {
    ReachableInv(cfg, steps, s);
    var t := Complete(s.table, c, attempt, counts).value;
    CompleteCounted(s.table, c, attempt, counts);
    AllEnded(t);
    OthersDecide(s.table, t, c, Expected(t));
    CompletedTable(s.table, cfg.jobId, c, attempt, counts, now);
  }

  // When every chunk of a whole manifest has ended, the counters say so.
  lemma AllEnded(t: Table)
    requires Counted(t) && ManifestWhole(t) && Sealed(t)
    requires forall d :: d in t.chunks ==> ChunkTerminal(t.chunks[d].status)
    ensures AllCounted(t.job.value)
    ensures t.job.value.failedChunks == 0
       <==> forall d :: 0 <= d < Expected(t) ==> d in t.chunks && t.chunks[d].status.ChunkCompleted?
  {
    AllTerminal(t.chunks, Expected(t));
  }

  /** And so does its failure at the last attempt: the job is FAILED. */
  lemma LastFailureFinishesJob(cfg: Config, steps: seq<Step>, s: Sys, c: nat, attempt: int, now: int)
    requires Reaches(cfg, steps, s) && Fail(s.table, c, attempt).Some? && attempt >= cfg.maxReceiveCount
    requires forall d :: d in s.table.chunks && d != c ==> ChunkTerminal(s.table.chunks[d].status)
    ensures var r := FailThenReconcile(s.table, cfg.jobId, c, attempt, cfg.maxReceiveCount, now);
      && r.ok && r.table.intent.Some? && r.table.intent.value.pending
      && StatusIn(r.table, {FAILED})
  {
    ReachableInv(cfg, steps, s);
    var t := Fail(s.table, c, attempt).value;
    FailCounted(s.table, c, attempt);
    AllEnded(t);
    FailedTable(s.table, cfg.jobId, c, attempt, cfg.maxReceiveCount, now);
  }

  lemma OthersDecide(t: Table, t': Table, c: nat, n: nat)
    requires c in t.chunks && (forall d :: d in t.chunks <==> 0 <= d < n) && t'.chunks.Keys == t.chunks.Keys
    requires t'.chunks[c].status.ChunkCompleted? && forall d :: d in t.chunks && d != c ==> t'.chunks[d] == t.chunks[d]
    ensures OthersComplete(t, c) <==> forall d :: 0 <= d < n ==> t'.chunks[d].status.ChunkCompleted?
  {
    if forall d :: 0 <= d < n ==> t'.chunks[d].status.ChunkCompleted? {
      forall d | d in t.chunks && d != c ensures t.chunks[d].status.ChunkCompleted? {
        assert t'.chunks[d] == t.chunks[d];
      }
    }
  }
}
