/** When the runs of a text plan succeed, and what they come to when they do not. */
module TextRuns {
  import opened Bytes
  import opened Sequences
  import opened LineIo
  import opened Windows
  import opened Jobs
  import opened Arithmetic
  import opened TextPlan
  import opened TextChunks

  ghost predicate PlanOf(f: seq<byte>, maxRecordLengthBytes: int, jobs: seq<ChunkJob>) {
    |f| <= MAX_INT64 && 1 <= maxRecordLengthBytes <= MAX_INT64 && IsTextPlan(|f|, maxRecordLengthBytes, jobs)
  }

  lemma PlannedTextChunk(f: seq<byte>, maxRecordLengthBytes: int, jobs: seq<ChunkJob>, c: nat)
    requires PlanOf(f, maxRecordLengthBytes, jobs) && c < |jobs|
    ensures TextChunk(f, jobs[c]) && jobs[c].trailingPaddingBytes == 0
    ensures jobs[c].maxRecordLengthBytes == maxRecordLengthBytes
  {
    TextPlanTiles(|f|, maxRecordLengthBytes, jobs);
  }

  /** The object's bytes around a planned chunk are as its run needs them. */
  ghost predicate Readable(f: seq<byte>, j: ChunkJob) {
    TextChunk(f, j) && ReadConditions(f, j, From(j), To(j))
  }

  /** A planned chunk is refused exactly when it is longer than the worker's maximum;
      otherwise the object's bytes decide, and whether its overlap fits 64 bits. */
  lemma PlannedTextRun(f: seq<byte>, maxRecordLengthBytes: int, jobs: seq<ChunkJob>, c: nat, maxChunkBytes: int)
    requires PlanOf(f, maxRecordLengthBytes, jobs) && c < |jobs|
    ensures TextChunk(f, jobs[c])
    ensures var r, j := TextRun(f, jobs[c], maxChunkBytes), jobs[c];
      && (r == Err(InvalidJob) <==> j.endByteInclusive - j.startByte + 1 > WorkerMaximum(maxChunkBytes))
      && (r != Err(InvalidJob) ==>
           (r.Ok? <==> j.endByteInclusive + 9 * maxRecordLengthBytes <= MAX_INT64 && Readable(f, j)))
  {
    PlannedTextChunk(f, maxRecordLengthBytes, jobs, c);
    TextRunOutcome(f, jobs[c], maxChunkBytes);
  }

  ghost predicate Succeeds(f: seq<byte>, j: ChunkJob, maxChunkBytes: int) {
    TextChunk(f, j) && TextRun(f, j, maxChunkBytes).Ok?
  }

  /** All runs of a plan succeed exactly when there are enough chunks for the
      worker's maximum, the last overlap fits 64 bits, and every chunk finds the
      terminators and the line lengths it needs. */
  lemma TextPlanSucceedsIff(f: seq<byte>, maxRecordLengthBytes: int, jobs: seq<ChunkJob>, maxChunkBytes: nat)
    requires PlanOf(f, maxRecordLengthBytes, jobs)
    ensures (forall c :: 0 <= c < |jobs| ==> Succeeds(f, jobs[c], maxChunkBytes))
       <==> && CeilDiv(|f|, WorkerMaximum(maxChunkBytes)) <= |jobs|
            && |f| - 1 + 9 * maxRecordLengthBytes <= MAX_INT64
            && forall c :: 0 <= c < |jobs| ==> Readable(f, jobs[c])
  {
    var n := |jobs|;
    TextPlanTiles(|f|, maxRecordLengthBytes, jobs);
    ChunkMaximumIff(|f|, maxRecordLengthBytes, jobs, WorkerMaximum(maxChunkBytes));
    forall c | 0 <= c < n
      ensures Succeeds(f, jobs[c], maxChunkBytes) <==>
        && Length(jobs[c]) <= WorkerMaximum(maxChunkBytes)
        && jobs[c].endByteInclusive + 9 * maxRecordLengthBytes <= MAX_INT64 && Readable(f, jobs[c])
    {
      PlannedTextRun(f, maxRecordLengthBytes, jobs, c, maxChunkBytes);
    }
    assert jobs[n - 1].endByteInclusive == |f| - 1;
  }

  /** Then there is an outcome of every run, and together they are the lines of the
      whole file. */
  lemma TextPlanReads(f: seq<byte>, maxRecordLengthBytes: int, jobs: seq<ChunkJob>, maxChunkBytes: int)
    returns (runs: seq<seq<Line>>)
    requires PlanOf(f, maxRecordLengthBytes, jobs)
    requires forall c :: 0 <= c < |jobs| ==> Succeeds(f, jobs[c], maxChunkBytes)
    ensures |runs| == |jobs|
    ensures forall c :: 0 <= c < |jobs| ==> Publishes(f, jobs[c], maxChunkBytes, runs[c])
    ensures Flatten(runs) == Split(f, 0)
  {
    runs := RunsOf(f, jobs, maxChunkBytes);
    TextChunksEqualWholeFile(f, jobs, runs, maxRecordLengthBytes, maxChunkBytes);
  }

  ghost function RunOf(f: seq<byte>, j: ChunkJob, maxChunkBytes: int): (run: seq<Line>)
    requires Succeeds(f, j, maxChunkBytes)
    ensures Publishes(f, j, maxChunkBytes, run)
  {
    TextRun(f, j, maxChunkBytes).value
  }

  ghost function RunsOf(f: seq<byte>, jobs: seq<ChunkJob>, maxChunkBytes: int): (runs: seq<seq<Line>>)
    requires forall c :: 0 <= c < |jobs| ==> Succeeds(f, jobs[c], maxChunkBytes)
    ensures |runs| == |jobs|
    ensures forall c :: 0 <= c < |jobs| ==> Publishes(f, jobs[c], maxChunkBytes, runs[c])
  {
    seq(|jobs|, c requires 0 <= c < |jobs| => RunOf(f, jobs[c], maxChunkBytes))
  }

  /** A plan of two chunks that both succeed: one-byte lines, and a record limit that
      makes the first window stop behind a terminator. */
  lemma TwoTextChunksSucceed(f: seq<byte>, maxChunkBytes: int) returns (jobs: seq<ChunkJob>, runs: seq<seq<Line>>)
    requires f == Alternating(2 * MIN_TARGET) && WorkerMaximum(maxChunkBytes) >= MIN_TARGET
    ensures IsTextPlan(|f|, 2, jobs) && |jobs| == |runs| == 2
    ensures forall c :: 0 <= c < 2 ==> Publishes(f, jobs[c], maxChunkBytes, runs[c])
    ensures runs[0] + runs[1] == Split(f, 0)
  {
    var n := |f|;
    jobs := TwoJobs(n);
    FirstSucceeds(f, n, jobs, maxChunkBytes);
    SecondSucceeds(f, n, jobs, maxChunkBytes);
    BothSucceed(f, jobs, maxChunkBytes);
    runs := TextPlanReads(f, 2, jobs, maxChunkBytes);
    FlattenTwo(runs);
  }

  predicate AreHalves(n: nat, jobs: seq<ChunkJob>) {
    && |jobs| == 2
    && jobs[0] == ChunkJob(Text, 0, n, 0, MIN_TARGET - 1, 2, 0, 0)
    && jobs[1] == ChunkJob(Text, 1, n, MIN_TARGET, n - 1, 2, 0, 0)
  }

  lemma TwoJobs(n: nat) returns (jobs: seq<ChunkJob>)
    requires n == 2 * MIN_TARGET
    ensures IsTextPlan(n, 2, jobs) && AreHalves(n, jobs)
  {
    jobs := [TextJob(n, 2, 0, 2), TextJob(n, 2, 1, 2)];
  }

  lemma FirstSucceeds(f: seq<byte>, n: nat, jobs: seq<ChunkJob>, maxChunkBytes: int)
    requires f == Alternating(2 * MIN_TARGET) && PlanOf(f, 2, jobs) && AreHalves(n, jobs) && |f| == n
    requires WorkerMaximum(maxChunkBytes) >= MIN_TARGET
    ensures Succeeds(f, jobs[0], maxChunkBytes)
  {
    EvenWindow(f, jobs[0], 0, MIN_TARGET, MIN_TARGET + 18);
    PlannedTextRun(f, 2, jobs, 0, maxChunkBytes);
  }

  lemma SecondSucceeds(f: seq<byte>, n: nat, jobs: seq<ChunkJob>, maxChunkBytes: int)
    requires f == Alternating(2 * MIN_TARGET) && PlanOf(f, 2, jobs) && AreHalves(n, jobs) && |f| == n
    requires WorkerMaximum(maxChunkBytes) >= MIN_TARGET
    ensures Succeeds(f, jobs[1], maxChunkBytes)
  {
    EvenWindow(f, jobs[1], MIN_TARGET - 18, |f|, |f|);
    PlannedTextRun(f, 2, jobs, 1, maxChunkBytes);
  }

  lemma BothSucceed(f: seq<byte>, jobs: seq<ChunkJob>, maxChunkBytes: int)
    requires |jobs| == 2 && Succeeds(f, jobs[0], maxChunkBytes) && Succeeds(f, jobs[1], maxChunkBytes)
    ensures forall c :: 0 <= c < |jobs| ==> Succeeds(f, jobs[c], maxChunkBytes)
  {
    forall c | 0 <= c < |jobs| ensures Succeeds(f, jobs[c], maxChunkBytes) { assert c == 0 || c == 1; }
  }

  lemma FlattenTwo<T>(parts: seq<seq<T>>)
    requires |parts| == 2
    ensures Flatten(parts) == parts[0] + parts[1]
  {
    assert parts[1..][1..] == [];
    assert Flatten(parts[1..]) == parts[1] + [];
  }

  // A window that ends behind a terminator, or with the file, shows short lines only.
  lemma EvenWindow(f: seq<byte>, j: ChunkJob, a: nat, end: nat, b: nat)
    requires f == Alternating(2 * MIN_TARGET) && TextChunk(f, j) && j.maxRecordLengthBytes == 2
    requires a == From(j) && end == j.endByteInclusive + 1 && b == To(j) && b % 2 == 0
    requires j.startByte == 0 || a + 2 <= j.startByte
    requires end == |f| || end + 2 <= b
    ensures Readable(f, j)
  {
    EvenFits(f, a, b);
    if j.startByte > 0 { TwoBytes(f, a, j.startByte); }
    if end < |f| { TwoBytes(f, end, b); }
  }

  lemma EvenFits(f: seq<byte>, a: nat, b: nat)
    requires f == Alternating(2 * MIN_TARGET) && a < b <= |f| && b % 2 == 0
    ensures WindowFits(f, a, b, 2)
  {
    forall p | 0 <= p < |f| ensures Fits(LineAt(f, p).raw, 2) { AlternatingFits(|f|, p); }
    assert f[a..LineEnd(f, a)] == LineAt(f, a).raw;
    assert f[b - 1] == LF;
  }

  lemma TwoBytes(f: seq<byte>, a: nat, b: nat)
    requires f == Alternating(2 * MIN_TARGET) && a + 2 <= b <= |f|
    ensures HasTerminator(f[a..b])
  {
    var w := f[a..b];
    assert w[0] == f[a] && w[1] == f[a + 1];
    assert IsTerminator(w[0]) || IsTerminator(w[1]);
  }
}
