/** The two sums that the counters of a job are documented to satisfy. */
module LedgerTotals {
  import opened Bytes
  import opened States
  import opened Ledger
  import opened LedgerRuns
  import opened LedgerInvariants
  import opened LedgerHistory
  import SenderRuns
  import Stream
  import Packer
  import Messages

  /** Every record read was published, rejected or ignored. */
  predicate AddsUp(c: Counts) { c.recordsRead == c.recordsPublished + c.recordsRejected + c.recordsIgnored }

  /** What a worker reports of a chunk whose stream returned without error. */
  function ReportOf(records: nat, rejected: nat, s: SenderRuns.State, ignoredLines: nat): Counts {
    Counts(records, s.events, rejected, 0, s.messages, s.calls, ignoredLines)
  }

  lemma ReportAddsUp(cfg: Stream.Config, records: seq<Packer.Record>, g: Stream.Grouped,
                     submitted: seq<seq<Messages.Message>>,
                     concurrency: int, steps: seq<SenderRuns.Step>, s: SenderRuns.State, ignoredLines: nat)
    requires Stream.Course(cfg, [], records) == Some(g) && Stream.Delivers(cfg, g, submitted)
    requires SenderRuns.Reaches(concurrency, steps, s) && SenderRuns.WaitsNil(s) && Stream.GivenTo(s.tasks, submitted)
    ensures AddsUp(ReportOf(|records|, g.rejected, s, ignoredLines))
  {
    Stream.StreamConserves(cfg, records, g, submitted, concurrency, steps, s);
  }

  /** So it is in every completion that a run reports. */
  ghost predicate ReportsAddUp(steps: seq<Step>) { forall k :: 0 <= k < |steps| ==> AddsUp(ReportedBy(steps[k])) }

  lemma {:induction false} ReportedAddsUp(steps: seq<Step>)
    requires ReportsAddUp(steps)
    ensures AddsUp(Reported(steps))
  {
    if steps != [] { ReportedAddsUp(steps[1..]); }
  }

  /** Then it is so for the job's totals at every point of the run, and for the
      completion event, whatever was retried, repeated or lost. */
  lemma TotalsAddUp(cfg: Config, steps: seq<Step>, s: Sys)
    requires Reaches(cfg, steps, s) && ReportsAddUp(steps)
    ensures s.table.job.Some? ==> AddsUp(s.table.job.value.totals)
    ensures s.table.intent.Some? ==> AddsUp(s.table.intent.value.event.counts)
  {
    NothingCountedTwice(cfg, steps, s);
    ReportedAddsUp(steps);
    IntentIffFinished(cfg, steps, s);
  }

  lemma {:induction false} StatesPartition(chunks: map<nat, ChunkItem>, n: nat)
    requires forall c :: 0 <= c < n ==> c in chunks
    ensures n
        == CountIn(chunks, ChunkPending, n) + CountIn(chunks, ChunkRunning, n) + CountIn(chunks, ChunkRetryPending, n)
                 + CountIn(chunks, ChunkCompleted, n) + CountIn(chunks, ChunkFailed, n)
  {
    if n > 0 { StatesPartition(chunks, n - 1); }
  }

  /** With a sealed manifest, at every point of every run, the expected chunks are
      the pending, running and retry-pending ones and the job's two counters. */
  lemma ChunksAddUp(cfg: Config, steps: seq<Step>, s: Sys)
    requires Reaches(cfg, steps, s) && Sealed(s.table)
    ensures var j, n := s.table.job.value, Expected(s.table);
      && j.expectedChunks == Some(n)
      && n == CountIn(s.table.chunks, ChunkPending, n) + CountIn(s.table.chunks, ChunkRunning, n)
              + CountIn(s.table.chunks, ChunkRetryPending, n) + j.completedChunks + j.failedChunks
  {
    ReachableInv(cfg, steps, s);
    StatesPartition(s.table.chunks, Expected(s.table));
  }

  // ---- A job whose scheduling is marked as failed ------------------------------------------

  const EXPLICIT: Config := Config(false, "job", "file", 3)
  const PLAN: seq<Range> := [Range(0, 9)]

  /** A request with one chunk: the organizer has planned and sent it, a worker has
      started it, and then the organizer marks the scheduling as failed. */
  const STRANDED: seq<Step> := [
    Organize(0, ExplicitRequest), Organize(0, WritePlan(PLAN)), Organize(0, WriteChunk), Organize(0, SealPlan),
    Organize(0, SendChunk(0)), Work(0, StartChunk(1)), Organize(0, MarkSchedulingFailed)]

  function StrandedTable(status: Status, isSealed: bool, chunks: map<nat, ChunkItem>): Table {
    Table(Some(JobItem("file", status, Some(1), isSealed, 0, 0, ZERO)), chunks, None)
  }

  function StrandedItem(status: ChunkState, attempt: int): map<nat, ChunkItem> {
    map[0 := ChunkItem(Range(0, 9), status, attempt, ZERO, false)]
  }

  // The states of that run.
  function Stage(k: nat): Sys {
    var waiting, started := StrandedItem(ChunkPending, 0), StrandedItem(ChunkRunning, 1);
    var planned: map<nat, Organizer> := map[0 := Planned(PLAN)];
    if k == 0 then INITIAL
    else if k == 1 then Sys(EMPTY, map[0 := Ready], {}, {}, {}, [])
    else if k == 2 then Sys(StrandedTable(PENDING, false, map[]), map[0 := Writing(PLAN, 0)], {}, {}, {}, [])
    else if k == 3 then Sys(StrandedTable(PENDING, false, waiting), map[0 := Writing(PLAN, 1)], {}, {}, {}, [])
    else if k == 4 then Sys(StrandedTable(PENDING, true, waiting), planned, {}, {}, {}, [])
    else if k == 5 then Sys(StrandedTable(PENDING, true, waiting), planned, {0}, {}, {}, [])
    else if k == 6 then Sys(StrandedTable(PENDING, true, started), planned, {0}, {}, {}, [])
    else Sys(StrandedTable(SCHEDULING_FAILED, true, started), planned, {0}, {}, {}, [])
  }

  lemma StageNext(k: nat)
    requires k < 7
    ensures Next(EXPLICIT, Stage(k), STRANDED[k]) == Some(Stage(k + 1))
  {
    if k < 4 { PlanStages(k, Stage(k), Stage(k + 1)); } else { WorkStages(k, Stage(k), Stage(k + 1)); }
  }

  lemma PlanStages(k: nat, s: Sys, next: Sys)
    requires k < 4 && s == Stage(k) && next == Stage(k + 1)
    ensures Next(EXPLICIT, s, STRANDED[k]) == Some(next)
  {
    var t := Next(EXPLICIT, s, STRANDED[k]);
    assert t.Some? && t.value.table.chunks == next.table.chunks && t.value.organizers == next.organizers;
  }

  lemma WorkStages(k: nat, s: Sys, next: Sys)
    requires 4 <= k < 7 && s == Stage(k) && next == Stage(k + 1)
    ensures Next(EXPLICIT, s, STRANDED[k]) == Some(next)
  {
    var t := Next(EXPLICIT, s, STRANDED[k]);
    assert t.Some? && t.value.table.chunks == next.table.chunks && t.value.sent == next.sent;
  }

  lemma {:induction false} StagesFollow(k: nat)
    requires k <= 7
    ensures After(EXPLICIT, Stage(k), STRANDED[k..]) == Some(Stage(7))
    decreases 7 - k
  {
    if k < 7 {
      StageNext(k);
      StagesFollow(k + 1);
      assert STRANDED[k..][1..] == STRANDED[k + 1..];
    }
  }

  /** That run exists, and leaves a chunk sent and running whose completion is
      refused. */
  lemma StrandedChunk(counts: Counts) returns (s: Sys)
    ensures Reaches(EXPLICIT, STRANDED, s) && StatusIn(s.table, {SCHEDULING_FAILED})
    ensures 0 in s.sent && Holds(s.table, 0, 1)
    ensures Next(EXPLICIT, s, Work(0, CompleteChunk(1, counts))).None?
  {
    s := Stage(7);
    StagesFollow(0);
    assert STRANDED[0..] == STRANDED;
  }

  /** Nor does any later point of a run allow it: once scheduling is marked as
      failed, no chunk of the job ever completes or fails. */
  lemma NothingEndsAfterwards(cfg: Config, steps: seq<Step>, s: Sys, more: seq<Step>, c: nat, attempt: int,
                              counts: Counts)
    requires Reaches(cfg, steps, s) && StatusIn(s.table, {SCHEDULING_FAILED}) && After(cfg, s, more).Some?
    ensures var s' := After(cfg, s, more).value;
      Next(cfg, s', Work(c, CompleteChunk(attempt, counts))).None? && Next(cfg, s', Work(c, FailChunk(attempt))).None?
  {
    OtherEndsAreSilent(cfg, steps, s, more);
  }
}
