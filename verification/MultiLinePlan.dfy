/** Planning of a multi-line object: nominal ranges, each padded up to the next
    break line found by looking ahead. */
module MultiLinePlan {
  import opened Bytes
  import opened LineIo
  import opened Windows
  import opened Jobs
  import opened Arithmetic
  import opened MultiLine

  datatype PlanError = InvalidLayout | EmptyObject | SizeOverflow | ChunkTooLarge | NoBreakFound(after: int)

  predicate ValidField(f: LineMatchField) {
    f.startByte >= 0 && f.lengthBytes >= 1 && |f.value| == f.lengthBytes
  }

  predicate ValidFields(fields: seq<LineMatchField>) {
    |fields| <= 99 && forall k :: 0 <= k < |fields| ==> ValidField(fields[k])
  }

  predicate ValidLayout(layout: Layout) {
    && layout.breakFields != []
    && ValidFields(layout.breakFields) && ValidFields(layout.includeFields) && ValidFields(layout.ignoreFields)
    && layout.maxBytesPerRecord >= 1
  }

  /** A line that matches the break fields starts at p. */
  ghost predicate IsBreak(data: seq<byte>, p: nat, fields: seq<LineMatchField>)
    requires p < |data|
  {
    IsLineStart(data, p) && Matches(LineAt(data, p).raw, fields)
  }

  ghost predicate NoBreakIn(data: seq<byte>, lo: nat, hi: nat, fields: seq<LineMatchField>)
    requires lo <= hi <= |data|
  {
    forall p :: lo <= p < hi ==> !IsBreak(data, p, fields)
  }

  /** at is the first break in data, or -1 when there is none. */
  ghost predicate IsFirstBreak(data: seq<byte>, at: int, fields: seq<LineMatchField>) {
    && -1 <= at < |data|
    && (at >= 0 ==> IsBreak(data, at, fields))
    && NoBreakIn(data, 0, if at < 0 then |data| else at, fields)
  }

  lemma NoBreakBetween(data: seq<byte>, start: nat, fields: seq<LineMatchField>)
    requires start < |data| && NoBreakIn(data, 0, start, fields)
    requires !Matches(LineAt(data, start).raw, fields)
    ensures NoBreakIn(data, 0, NextStart(data, start), fields)
  {
    forall p | start < p < NextStart(data, start) ensures !IsLineStart(data, p) {
      NoStartBeforeNext(data, start, p);
    }
  }

  /** The scan over CR, LF and CRLF lines; a last line without terminator counts. */
  method NextBreakOffset(data: seq<byte>, fields: seq<LineMatchField>) returns (at: int)
    ensures IsFirstBreak(data, at, fields)
  {
    var start: nat := 0;
    while start < |data|
      invariant start <= |data|
      invariant start < |data| ==> IsLineStart(data, start)
      invariant NoBreakIn(data, 0, start, fields)
    {
      var end := start;
      while end < |data| && data[end] != CR && data[end] != LF
        invariant start <= end <= |data|
        invariant forall k :: start <= k < end ==> !IsTerminator(data[k])
      {
        end := end + 1;
      }
      LineEndUnique(data, start, end);
      if Matches(data[start..end], fields) { return start; }
      NoBreakBetween(data, start, fields);
      NextStartIsNext(data, start);
      if end >= |data| { break; }
      if data[end] == CR && end + 1 < |data| && data[end + 1] == LF {
        start := end + 2;
      } else {
        start := end + 1;
      }
    }
    return -1;
  }

  function OwnedEnd(j: ChunkJob): int { j.endByteInclusive - j.trailingPaddingBytes }

  // The bytes read ahead of the next chunk: one record's worth, or up to the end.
  function LookEnd(size: nat, ownedEnd: int, maxBytesPerRecord: int): int {
    Min(ownedEnd + maxBytesPerRecord, size - 1) + 1
  }

  /** How far a chunk that owns bytes up to ownedEnd reads on: to the first break
      line ahead, or to the end of the object when no record starts before it. */
  ghost predicate IsPadding(f: seq<byte>, layout: Layout, ownedEnd: int, padding: int)
    requires 0 <= ownedEnd < |f| && layout.maxBytesPerRecord >= 1
  {
    if ownedEnd == |f| - 1 then padding == 0 else
    var end := LookEnd(|f|, ownedEnd, layout.maxBytesPerRecord);
    var look := f[ownedEnd + 1..end];
    || (0 <= padding < |look| && IsFirstBreak(look, padding, layout.breakFields))
    || (end == |f| && padding == |look| && IsFirstBreak(look, -1, layout.breakFields))
  }

  ghost predicate IsPlannedChunk(f: seq<byte>, layout: Layout, nominal: int, c: nat, j: ChunkJob) {
    && layout.maxBytesPerRecord >= 1
    && 0 <= j.startByte <= OwnedEnd(j) < |f|
    && OwnedEnd(j) == Min(j.startByte + nominal - 1, |f| - 1)
    && j == ChunkJob(MultiLine, c, |f|, j.startByte, j.endByteInclusive, layout.maxBytesPerRecord,
         j.trailingPaddingBytes, 0)
    && IsPadding(f, layout, OwnedEnd(j), j.trailingPaddingBytes)
  }

  /** Chunks in order; what they own is consecutive, from the first byte on. */
  ghost predicate IsPlanPrefix(f: seq<byte>, layout: Layout, nominal: int, jobs: seq<ChunkJob>) {
    && (forall c :: 0 <= c < |jobs| ==> IsPlannedChunk(f, layout, nominal, c, jobs[c]))
    && (jobs != [] ==> jobs[0].startByte == 0)
    && (forall c :: 0 < c < |jobs| ==> Follows(jobs, c))
  }

  predicate Follows(jobs: seq<ChunkJob>, c: nat)
    requires 0 < c < |jobs|
  {
    jobs[c].startByte == OwnedEnd(jobs[c - 1]) + 1
  }

  ghost predicate IsMultiLinePlan(f: seq<byte>, layout: Layout, nominal: int, jobs: seq<ChunkJob>) {
    && ValidLayout(layout) && nominal >= layout.maxBytesPerRecord
    && IsPlanPrefix(f, layout, nominal, jobs)
    && jobs != [] && OwnedEnd(jobs[|jobs| - 1]) == |f| - 1
  }

  ghost predicate IsNoBreak(f: seq<byte>, layout: Layout, ownedEnd: int) {
    var end := LookEnd(|f|, ownedEnd, layout.maxBytesPerRecord);
    0 <= ownedEnd < end < |f| && IsFirstBreak(f[ownedEnd + 1..end], -1, layout.breakFields)
  }

  /** No break is in reach when the next maxBytesPerRecord bytes, which are not the last
      of the file, show none. */
  lemma NoBreakIff(f: seq<byte>, layout: Layout, ownedEnd: nat)
    requires layout.maxBytesPerRecord >= 1
    ensures IsNoBreak(f, layout, ownedEnd) <==>
      var end := ownedEnd + 1 + layout.maxBytesPerRecord;
      end < |f| && NoBreakIn(f[ownedEnd + 1..end], 0, layout.maxBytesPerRecord, layout.breakFields)
  {
  }

  method PaddingAfter(f: seq<byte>, layout: Layout, ownedEnd: int) returns (r: Result<int, PlanError>)
    requires 0 <= ownedEnd < |f| && layout.maxBytesPerRecord >= 1
    ensures r.Ok? ==> r.value >= 0 && IsPadding(f, layout, ownedEnd, r.value)
    ensures r.Err? ==> r.error == NoBreakFound(ownedEnd)
    ensures r.Err? <==> IsNoBreak(f, layout, ownedEnd)
  {
    if ownedEnd == |f| - 1 { return Ok(0); }
    var end := LookEnd(|f|, ownedEnd, layout.maxBytesPerRecord);
    var at := NextBreakOffset(f[ownedEnd + 1..end], layout.breakFields);
    if at >= 0 { return Ok(at); }
    if end < |f| { return Err(NoBreakFound(ownedEnd)); }
    return Ok(|f| - 1 - ownedEnd);
  }

  function Boundary(nominal: int, k: nat): int { k * nominal }

  /** The k-th nominal boundary lies inside the file and no break is in reach of it. */
  ghost predicate IsBlocked(f: seq<byte>, layout: Layout, nominal: int, k: nat) {
    0 < Boundary(nominal, k) < |f| && IsNoBreak(f, layout, Boundary(nominal, k) - 1)
  }

  ghost predicate NoneBlocked(f: seq<byte>, layout: Layout, nominal: int, n: nat) {
    forall k: nat :: k <= n ==> !IsBlocked(f, layout, nominal, k)
  }

  /** after is the last byte in front of the first blocked boundary. */
  ghost predicate IsFirstBlocked(f: seq<byte>, layout: Layout, nominal: int, k: nat, after: int) {
    && k > 0 && IsBlocked(f, layout, nominal, k) && NoneBlocked(f, layout, nominal, k - 1)
    && after == Boundary(nominal, k) - 1
  }

  /** A plan exists exactly when every nominal boundary has a break in reach. */
  method CutMultiLine(f: seq<byte>, layout: Layout, nominal: int) returns (r: Result<seq<ChunkJob>, PlanError>)
    requires ValidLayout(layout) && f != [] && nominal >= layout.maxBytesPerRecord
    ensures r.Ok? <==> forall k: nat :: !IsBlocked(f, layout, nominal, k)
    ensures r.Ok? ==> IsMultiLinePlan(f, layout, nominal, r.value)
    ensures r.Err? ==> r.error.NoBreakFound? && exists k: nat :: IsFirstBlocked(f, layout, nominal, k, r.error.after)
  {
    var size := |f|;
    var jobs: seq<ChunkJob> := [];
    var start, chunk := 0, 0;
    while start < size
      invariant chunk == |jobs| && start == Boundary(nominal, chunk) >= 0
      invariant IsPlanPrefix(f, layout, nominal, jobs) && Reaches(jobs, if start < size then start else size)
      invariant NoneBlocked(f, layout, nominal, chunk)
    {
      var j := NextChunk(f, layout, nominal, chunk, start);
      NextBoundary(f, layout, nominal, chunk, start, Min(start + nominal - 1, size - 1));
      if j.Err? {
        assert IsFirstBlocked(f, layout, nominal, chunk + 1, j.error.after);
        return Err(j.error);
      }
      PlanExtends(f, layout, nominal, jobs, j.value);
      jobs := jobs + [j.value];
      start, chunk := start + nominal, chunk + 1;
    }
    LaterBoundaries(f, layout, nominal, chunk);
    return Ok(jobs);
  }

  method NextChunk(f: seq<byte>, layout: Layout, nominal: int, chunk: nat, start: int)
    returns (r: Result<ChunkJob, PlanError>)
    requires 0 <= start < |f| && nominal >= 1 && layout.maxBytesPerRecord >= 1
    ensures var ownedEnd := Min(start + nominal - 1, |f| - 1);
      if IsNoBreak(f, layout, ownedEnd) then r == Err(NoBreakFound(ownedEnd))
      else
        && r.Ok? && r.value.startByte == start && OwnedEnd(r.value) == ownedEnd
        && IsPlannedChunk(f, layout, nominal, chunk, r.value)
  {
    var ownedEnd := start + nominal - 1;
    if ownedEnd >= |f| { ownedEnd := |f| - 1; }
    var padding := PaddingAfter(f, layout, ownedEnd);
    if padding.Err? { return Err(padding.error); }
    var end := ownedEnd + padding.value;
    return Ok(ChunkJob(MultiLine, chunk, |f|, start, end, layout.maxBytesPerRecord, padding.value, 0));
  }

  // What the jobs own ends in front of byte end.
  predicate Reaches(jobs: seq<ChunkJob>, end: int) {
    end == if jobs == [] then 0 else OwnedEnd(jobs[|jobs| - 1]) + 1
  }

  // The boundary behind chunk k, and the last byte the chunk owns.
  lemma NextBoundary(f: seq<byte>, layout: Layout, nominal: int, k: nat, start: int, ownedEnd: int)
    requires nominal >= 1 && 0 <= start == Boundary(nominal, k) < |f| && ownedEnd == Min(start + nominal - 1, |f| - 1)
    requires NoneBlocked(f, layout, nominal, k)
    ensures Boundary(nominal, k + 1) == start + nominal
    ensures if IsNoBreak(f, layout, ownedEnd) then IsFirstBlocked(f, layout, nominal, k + 1, ownedEnd)
            else NoneBlocked(f, layout, nominal, k + 1)
  {
    assert (k + 1) * nominal == k * nominal + nominal;
  }

  lemma LaterBoundaries(f: seq<byte>, layout: Layout, nominal: int, n: nat)
    requires nominal >= 1 && Boundary(nominal, n) >= |f| && NoneBlocked(f, layout, nominal, n)
    ensures forall k: nat :: !IsBlocked(f, layout, nominal, k)
  {
    forall k: nat | k > n ensures !IsBlocked(f, layout, nominal, k) { MulAtMost(nominal, n, k); }
  }

  lemma PlanExtends(f: seq<byte>, layout: Layout, nominal: int, jobs: seq<ChunkJob>, j: ChunkJob)
    requires IsPlanPrefix(f, layout, nominal, jobs) && IsPlannedChunk(f, layout, nominal, |jobs|, j)
    requires j.startByte == if jobs == [] then 0 else OwnedEnd(jobs[|jobs| - 1]) + 1
    ensures IsPlanPrefix(f, layout, nominal, jobs + [j])
  {
    var all := jobs + [j];
    forall c | 0 <= c < |all| ensures IsPlannedChunk(f, layout, nominal, c, all[c]) {
      assert all[c] == if c < |jobs| then jobs[c] else j;
    }
    forall c | 0 < c < |all| ensures Follows(all, c) {
      assert c < |jobs| ==> Follows(jobs, c) && all[c] == jobs[c] && all[c - 1] == jobs[c - 1];
    }
  }

  /** Fails without a plan exactly for the reasons named; a missing break is
      reported only where the look-ahead really has none. */
  method MultiLineJobs(f: seq<byte>, layout: Layout, recordsPerChunk: int, maxChunkBytes: int)
    returns (r: Result<seq<ChunkJob>, PlanError>)
    ensures var nominal := Wrap64(recordsPerChunk * layout.maxBytesPerRecord);
      if !ValidLayout(layout) then r == Err(InvalidLayout)
      else if f == [] then r == Err(EmptyObject)
      else if nominal < layout.maxBytesPerRecord then r == Err(SizeOverflow)
      else if nominal > MaxChunkBytes(maxChunkBytes) then r == Err(ChunkTooLarge)
      else if forall k: nat :: !IsBlocked(f, layout, nominal, k)
        then r.Ok? && IsMultiLinePlan(f, layout, nominal, r.value)
      else r.Err? && r.error.NoBreakFound? && exists k: nat :: IsFirstBlocked(f, layout, nominal, k, r.error.after)
  {
    if !ValidLayout(layout) { return Err(InvalidLayout); }
    if f == [] { return Err(EmptyObject); }
    var nominal := Wrap64(recordsPerChunk * layout.maxBytesPerRecord);
    if nominal < layout.maxBytesPerRecord { return Err(SizeOverflow); }
    if nominal > MaxChunkBytes(maxChunkBytes) { return Err(ChunkTooLarge); }
    r := CutMultiLine(f, layout, nominal);
  }
}
