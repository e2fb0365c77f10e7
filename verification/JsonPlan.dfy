/** Planning of a JSON array: nominal byte ranges, content unread. */
module JsonPlan {
  import opened Bytes
  import opened Jobs
  import opened TextPlan

  datatype JsonPlanError = InvalidLayout | NoBytes | SizeOverflow | ChunkTooLarge

  predicate IsJsonJob(j: ChunkJob, c: nat, size: nat, nominal: int, maxBytesPerElement: int) {
    && 0 <= j.startByte <= j.endByteInclusive == Min(j.startByte + nominal - 1, size - 1)
    && j == ChunkJob(Json, c, size, j.startByte, j.endByteInclusive, maxBytesPerElement, 0, maxBytesPerElement)
  }

  /** The plan tiles the object, every range but the last of the nominal size. */
  ghost predicate IsJsonPlan(size: nat, nominal: int, maxBytesPerElement: int, jobs: seq<ChunkJob>) {
    && Tiles(jobs, size) && nominal >= maxBytesPerElement >= 1
    && forall c :: 0 <= c < |jobs| ==> IsJsonJob(jobs[c], c, size, nominal, maxBytesPerElement)
  }

  method JsonArrayJobs(size: nat, firstFieldName: string, maxBytesPerElement: int, recordsPerChunk: int,
                       maxChunkBytes: int)
    returns (r: Result<seq<ChunkJob>, JsonPlanError>)
    ensures var nominal := Wrap64(recordsPerChunk * maxBytesPerElement);
      if maxBytesPerElement < 1 || firstFieldName == "" then r == Err(InvalidLayout)
      else if size == 0 then r == Err(NoBytes)
      else if nominal < maxBytesPerElement then r == Err(SizeOverflow)
      else if nominal > MaxChunkBytes(maxChunkBytes) then r == Err(ChunkTooLarge)
      else r.Ok? && IsJsonPlan(size, nominal, maxBytesPerElement, r.value)
  {
    if maxBytesPerElement < 1 || firstFieldName == "" { return Err(InvalidLayout); }
    if size == 0 { return Err(NoBytes); }
    var nominal := Wrap64(recordsPerChunk * maxBytesPerElement);
    if nominal < maxBytesPerElement { return Err(SizeOverflow); }
    if nominal > MaxChunkBytes(maxChunkBytes) { return Err(ChunkTooLarge); }
    var jobs := CutJson(size, nominal, maxBytesPerElement);
    return Ok(jobs);
  }

  // The first jobs of a plan, up to byte end.
  ghost predicate IsJsonPrefix(size: nat, nominal: int, maxBytesPerElement: int, jobs: seq<ChunkJob>, end: nat) {
    && end <= size
    && (if jobs == [] then end == 0 else jobs[0].startByte == 0 && jobs[|jobs| - 1].endByteInclusive == end - 1)
    && (forall c :: 0 <= c < |jobs| ==> IsJsonJob(jobs[c], c, size, nominal, maxBytesPerElement))
    && (forall c :: 0 < c < |jobs| ==> Adjacent(jobs, c))
  }

  predicate Adjacent(jobs: seq<ChunkJob>, c: nat)
    requires 0 < c < |jobs|
  {
    jobs[c].startByte == jobs[c - 1].endByteInclusive + 1
  }

  method CutJson(size: nat, nominal: int, maxBytesPerElement: int) returns (jobs: seq<ChunkJob>)
    requires size > 0 && nominal >= maxBytesPerElement >= 1
    ensures IsJsonPlan(size, nominal, maxBytesPerElement, jobs)
  {
    var start: nat, chunk := 0, 0;
    jobs := [];
    while start < size
      invariant chunk == |jobs| && IsJsonPrefix(size, nominal, maxBytesPerElement, jobs, start)
    {
      var ownedEnd := start + nominal - 1;
      if ownedEnd >= size { ownedEnd := size - 1; }
      var j := ChunkJob(Json, chunk, size, start, ownedEnd, maxBytesPerElement, 0, maxBytesPerElement);
      PrefixExtends(size, nominal, maxBytesPerElement, jobs, start, j);
      jobs := jobs + [j];
      start, chunk := ownedEnd + 1, chunk + 1;
    }
    PrefixIsPlan(size, nominal, maxBytesPerElement, jobs);
  }

  lemma PrefixExtends(size: nat, nominal: int, maxBytesPerElement: int, jobs: seq<ChunkJob>, start: nat, j: ChunkJob)
    requires IsJsonPrefix(size, nominal, maxBytesPerElement, jobs, start) && start < size
    requires IsJsonJob(j, |jobs|, size, nominal, maxBytesPerElement) && j.startByte == start
    ensures IsJsonPrefix(size, nominal, maxBytesPerElement, jobs + [j], j.endByteInclusive + 1)
  {
    var all := jobs + [j];
    forall c | 0 <= c < |all| ensures IsJsonJob(all[c], c, size, nominal, maxBytesPerElement) {
      assert all[c] == if c < |jobs| then jobs[c] else j;
    }
    forall c | 0 < c < |all| ensures Adjacent(all, c) {
      assert c < |jobs| ==> Adjacent(jobs, c) && all[c] == jobs[c] && all[c - 1] == jobs[c - 1];
    }
  }

  lemma PrefixIsPlan(size: nat, nominal: int, maxBytesPerElement: int, jobs: seq<ChunkJob>)
    requires size > 0 && nominal >= maxBytesPerElement >= 1
    requires IsJsonPrefix(size, nominal, maxBytesPerElement, jobs, size)
    ensures IsJsonPlan(size, nominal, maxBytesPerElement, jobs)
  {
    forall c | 0 < c < |jobs| ensures jobs[c].startByte == jobs[c - 1].endByteInclusive + 1 {
      assert Adjacent(jobs, c);
    }
    forall c | 0 <= c < |jobs| ensures 0 <= jobs[c].startByte <= jobs[c].endByteInclusive < size {
      assert IsJsonJob(jobs[c], c, size, nominal, maxBytesPerElement);
    }
  }
}
