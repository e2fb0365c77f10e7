/** Planning of a text object: nominal, balanced byte ranges, content unread. */
module TextPlan {
  import opened Bytes
  import opened Jobs
  import opened Arithmetic

  datatype PlanError = EmptyObject | InvalidRecordLength | ChunkMaximumTooSmall

  const MIN_TARGET: int := 5 * 1024 * 1024
  const AUTOMATIC_CHUNKS: int := 100

  /** n is the desired count where the two bounds allow it: the fewest chunks that
      respect the chunk maximum, and the most that respect the 5 MiB minimum, which
      prevails. */
  predicate IsTextChunkCount(size: nat, maxChunk: int, targetChunkBytes: int, n: int)
    requires maxChunk >= 1
  {
    if size < MIN_TARGET then n == 1 else
    var minCount, maxCount := CeilDiv(size, maxChunk), size / MIN_TARGET;
    var desired := if targetChunkBytes > 0 then CeilDiv(size, targetChunkBytes) else 100;
    && 1 <= n <= maxCount
    && (minCount <= maxCount ==> minCount <= n)
    && (minCount <= desired <= maxCount ==> n == desired)
    && (desired < minCount <= maxCount ==> n == minCount)
    && (desired > maxCount || minCount > maxCount ==> n == maxCount)
  }

  /** How many chunks a text object of this size is cut into: the desired count,
      raised to the fewest that respect the chunk maximum, then lowered to the
      most that respect the 5 MiB minimum. */
  method TextChunkCount(size: nat, maxChunkBytes: int, targetChunkBytes: int) returns (r: Result<int, PlanError>)
    ensures r.Err? <==> size >= MIN_TARGET && MaxChunkBytes(maxChunkBytes) < MIN_TARGET
    ensures r.Ok? ==> IsTextChunkCount(size, MaxChunkBytes(maxChunkBytes), targetChunkBytes, r.value)
  {
    if size < MIN_TARGET { return Ok(1); }
    var maxChunk := MaxChunkBytes(maxChunkBytes);
    if maxChunk < MIN_TARGET { return Err(ChunkMaximumTooSmall); }
    var minCount := CeilDiv(size, maxChunk);
    var maxCount := size / MIN_TARGET;
    var desired := AUTOMATIC_CHUNKS;
    if targetChunkBytes > 0 { desired := CeilDiv(size, targetChunkBytes); }
    if desired < minCount { desired := minCount; }
    if desired > maxCount { desired := maxCount; }
    CeilDivLeast(size, maxChunk, 0);
    DivGreatest(size, MIN_TARGET, 1);
    if targetChunkBytes > 0 { CeilDivLeast(size, targetChunkBytes, 0); }
    return Ok(desired);
  }

  /** Where chunk c of n starts. */
  function Cut(size: nat, n: int, c: nat): nat
    requires n >= 1
  {
    MulAtMost(size, 0, c);
    DivGreatest(size * c, n, 0);
    size * c / n
  }

  function TextJob(size: nat, n: int, c: nat, maxRecordLengthBytes: int): ChunkJob
    requires n >= 1
  {
    ChunkJob(Text, c, size, Cut(size, n, c), Cut(size, n, c + 1) - 1, maxRecordLengthBytes, 0, 0)
  }

  /** jobs are the nominal ranges of a plan: n chunks, cut evenly. */
  ghost predicate IsTextPlan(size: nat, maxRecordLengthBytes: int, jobs: seq<ChunkJob>) {
    && 1 <= |jobs| <= size
    && forall c :: 0 <= c < |jobs| ==> jobs[c] == TextJob(size, |jobs|, c, maxRecordLengthBytes)
  }

  method VariableJobs(size: nat, maxRecordLengthBytes: int, maxChunkBytes: int, targetChunkBytes: int)
    returns (r: Result<seq<ChunkJob>, PlanError>)
    ensures r.Err? <==>
        size == 0 || maxRecordLengthBytes < 1 || (size >= MIN_TARGET && MaxChunkBytes(maxChunkBytes) < MIN_TARGET)
    ensures r.Ok? ==> IsTextPlan(size, maxRecordLengthBytes, r.value)
    ensures r.Ok? ==> IsTextChunkCount(size, MaxChunkBytes(maxChunkBytes), targetChunkBytes, |r.value|)
  {
    if size == 0 { return Err(EmptyObject); }
    if maxRecordLengthBytes < 1 { return Err(InvalidRecordLength); }
    var count := TextChunkCount(size, maxChunkBytes, targetChunkBytes);
    if count.Err? { return Err(count.error); }
    var n := count.value;
    assert n <= size;
    var jobs: seq<ChunkJob> := [];
    for chunk := 0 to n
      invariant |jobs| == chunk
      invariant forall c :: 0 <= c < chunk ==> jobs[c] == TextJob(size, n, c, maxRecordLengthBytes)
    {
      var start := size * chunk / n;
      var end := size * (chunk + 1) / n - 1;
      jobs := jobs + [ChunkJob(Text, chunk, size, start, end, maxRecordLengthBytes, 0, 0)];
    }
    return Ok(jobs);
  }

  // ---- Properties of the plan -------------------------------------------------

  lemma CutEnds(size: nat, n: int)
    requires n >= 1
    ensures Cut(size, n, 0) == 0 && Cut(size, n, n) == size
  {
    DivUnique(size * n, n, size);
  }

  /** Every chunk has floor(size/n) bytes or one more. */
  lemma CutStep(size: nat, n: int, c: nat)
    requires 1 <= n <= size
    ensures 1 <= size / n <= Cut(size, n, c + 1) - Cut(size, n, c) <= size / n + 1
    ensures Cut(size, n, c + 1) - Cut(size, n, c) <= CeilDiv(size, n)
  {
    assert size * (c + 1) == size * c + size;
    DivStep(size * c, size, n);
    DivGreatest(size, n, 1);
  }

  lemma {:induction false} CutMonotone(size: nat, n: int, c: nat, d: nat)
    requires 1 <= n <= size && c <= d
    ensures Cut(size, n, c) <= Cut(size, n, d)
    decreases d - c
  {
    if c < d {
      CutStep(size, n, c);
      CutMonotone(size, n, c + 1, d);
    }
  }

  lemma LastChunkLength(size: nat, n: int)
    requires 1 <= n <= size
    ensures size - Cut(size, n, n - 1) == CeilDiv(size, n)
  {
    var u, x := CeilDiv(size, n), Cut(size, n, n - 1);
    assert size * (n - 1) == n * size - size;
    CeilDivLeast(size, n, u);
    CeilDivLeast(size, n, u - 1);
    assert n * (size - u) == n * size - n * u;
    assert n * (u - 1) == n * u - n;
    DivUnique(size * (n - 1), n, size - u);
  }

  /** Consecutive non-empty ranges from 0 to the last byte. */
  ghost predicate Tiles(jobs: seq<ChunkJob>, size: nat) {
    && jobs != []
    && jobs[0].startByte == 0
    && jobs[|jobs| - 1].endByteInclusive == size - 1
    && (forall c :: 0 <= c < |jobs| ==> 0 <= jobs[c].startByte <= jobs[c].endByteInclusive < size)
    && (forall c :: 0 < c < |jobs| ==> jobs[c].startByte == jobs[c - 1].endByteInclusive + 1)
  }

  /** A plan tiles the object with balanced ranges. */
  lemma TextPlanTiles(size: nat, maxRecordLengthBytes: int, jobs: seq<ChunkJob>)
    requires IsTextPlan(size, maxRecordLengthBytes, jobs)
    ensures Tiles(jobs, size)
    ensures forall c :: 0 <= c < |jobs| ==> size / |jobs| <= Length(jobs[c]) <= size / |jobs| + 1
  {
    var n := |jobs|;
    CutEnds(size, n);
    forall c | 0 <= c < n
      ensures 0 <= jobs[c].startByte <= jobs[c].endByteInclusive < size
      ensures size / n <= Length(jobs[c]) <= size / n + 1
    {
      CutStep(size, n, c);
      CutMonotone(size, n, 0, c);
      CutMonotone(size, n, c + 1, n);
    }
  }

  /** Every chunk respects the chunk maximum exactly when there are enough
      chunks; the last chunk is the one that exceeds it otherwise. */
  lemma ChunkMaximumIff(size: nat, maxRecordLengthBytes: int, jobs: seq<ChunkJob>, maxChunk: int)
    requires IsTextPlan(size, maxRecordLengthBytes, jobs) && maxChunk >= 1
    ensures (forall c :: 0 <= c < |jobs| ==> Length(jobs[c]) <= maxChunk) <==> CeilDiv(size, maxChunk) <= |jobs|
  {
    var n := |jobs|;
    CeilDivLeast(size, maxChunk, n);
    CeilDivLeast(size, n, maxChunk);
    LastChunkLength(size, n);
    CutEnds(size, n);
    assert Length(jobs[n - 1]) == CeilDiv(size, n);
    forall c | 0 <= c < n ensures Length(jobs[c]) <= CeilDiv(size, n) { CutStep(size, n, c); }
  }

  lemma MinimumRespected(size: nat, maxRecordLengthBytes: int, jobs: seq<ChunkJob>)
    requires IsTextPlan(size, maxRecordLengthBytes, jobs) && size >= MIN_TARGET && |jobs| <= size / MIN_TARGET
    ensures forall c :: 0 <= c < |jobs| ==> Length(jobs[c]) >= MIN_TARGET
  {
    DivGreatest(size, MIN_TARGET, |jobs|);
    DivGreatest(size, |jobs|, MIN_TARGET);
    forall c | 0 <= c < |jobs| ensures Length(jobs[c]) >= MIN_TARGET { CutStep(size, |jobs|, c); }
  }

  /** The two count bounds are always compatible from a 10 MiB maximum on. */
  lemma BoundsCompatible(size: nat, maxChunk: int)
    requires size >= MIN_TARGET && maxChunk >= 2 * MIN_TARGET
    ensures CeilDiv(size, maxChunk) <= size / MIN_TARGET
  {
    var k := size / MIN_TARGET;
    CeilDivLeast(size, maxChunk, k);
    DivBounds(size, MIN_TARGET);
    DivGreatest(size, MIN_TARGET, 1);
    MulAtMost(k, 2 * MIN_TARGET, maxChunk);
  }

  /** The planner's products fit 64 bits for every object the store can hold. */
  lemma ProductsFit(size: nat, n: int, c: nat)
    requires size <= 5 * 0x100_0000_0000 && c <= n <= size / MIN_TARGET
    ensures size * c <= MAX_INT64
  {
    DivGreatest(size, MIN_TARGET, n);
    var cap := 5 * 0x100_0000_0000;
    MulAtMost(size, c, n);
    assert n <= cap / MIN_TARGET;
    MulAtMost(n, size, cap);
    MulAtMost(cap, n, cap / MIN_TARGET);
  }
}
