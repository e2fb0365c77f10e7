/** When the runs of a multi-line plan succeed, and what they come to when they do
    not. */
module MultiLineRuns {
  import opened Bytes
  import opened Sequences
  import opened LineIo
  import opened Windows
  import opened Jobs
  import opened MultiLine
  import opened MultiLinePlan
  import opened MultiLineChunks
  import opened MultiLineRecords

  /** The file's bytes in the range of a chunk are as its run needs them. */
  ghost predicate Readable(f: seq<byte>, j: ChunkJob, layout: Layout) {
    && 0 <= j.startByte <= j.endByteInclusive < |f| && layout.maxBytesPerRecord >= 1
    && IsTerminator(f[j.endByteInclusive]) && Fits(LineAt(f, j.startByte).raw, layout.maxBytesPerRecord)
    && LinesFit(f, j.startByte + 1, j.endByteInclusive + 1, layout.maxBytesPerRecord)
  }

  lemma PlannedFields(f: seq<byte>, layout: Layout, nominal: int, jobs: seq<ChunkJob>, c: nat)
    requires IsMultiLinePlan(f, layout, nominal, jobs) && c < |jobs|
    ensures var j := jobs[c];
      && 0 <= j.startByte <= j.endByteInclusive < |f| && j.dataType.MultiLine?
      && 0 <= j.trailingPaddingBytes <= layout.maxBytesPerRecord == j.maxRecordLengthBytes
      && j.trailingPaddingBytes < j.endByteInclusive - j.startByte + 1
  {
    assert IsPlannedChunk(f, layout, nominal, c, jobs[c]);
  }

  /** A planned chunk is refused exactly when what it owns, together with its padding,
      is longer than the worker's maximum; otherwise the file's bytes decide. */
  lemma PlannedMultiLineRun(f: seq<byte>, layout: Layout, nominal: int, jobs: seq<ChunkJob>, c: nat, maxChunkBytes: int)
    requires IsMultiLinePlan(f, layout, nominal, jobs) && c < |jobs|
    ensures MultiLineRun(f, jobs[c], layout, maxChunkBytes)
         == if OwnedEnd(jobs[c]) - jobs[c].startByte + 1 + jobs[c].trailingPaddingBytes > WorkerMaximum(maxChunkBytes)
              then Err(InvalidJob)
            else if !Readable(f, jobs[c], layout) then Err(ReadFailed)
            else Ok(OwnedRecordsOf(f, jobs[c], layout))
  {
    PlannedFields(f, layout, nominal, jobs, c);
    PaddedRun(f, jobs[c], layout, maxChunkBytes, jobs[c].startByte, jobs[c].endByteInclusive + 1);
  }

  /** The records of one pass over the chunk's range that start in what it owns. */
  ghost function OwnedRecordsOf(f: seq<byte>, j: ChunkJob, layout: Layout): seq<Line>
    requires 0 <= j.startByte <= j.endByteInclusive < |f|
  {
    var lines := Split(f[j.startByte..j.endByteInclusive + 1], 0);
    Owned(Present(RecordSlots(lines, layout)), j.startByte, j.startByte, OwnedEnd(j))
  }

  lemma PaddedRun(f: seq<byte>, j: ChunkJob, layout: Layout, maxChunkBytes: int, s: nat, t: nat)
    requires s == j.startByte < t == j.endByteInclusive + 1 <= |f| && j.dataType.MultiLine?
    requires layout.maxBytesPerRecord >= 1 && layout.breakFields != []
    requires 0 <= j.trailingPaddingBytes <= j.maxRecordLengthBytes && j.trailingPaddingBytes < t - s
    ensures MultiLineRun(f, j, layout, maxChunkBytes)
         == if t - s > WorkerMaximum(maxChunkBytes) then Err(InvalidJob)
            else if !Readable(f, j, layout) then Err(ReadFailed)
            else Ok(OwnedRecordsOf(f, j, layout))
  {
    RunSucceedsIff(f, j, layout, maxChunkBytes, s, t);
    RunIsOwned(f, j, layout, maxChunkBytes, f[s..t]);
    RunValue(f, j, layout, f[s..t]);
  }

  lemma RunSucceedsIff(f: seq<byte>, j: ChunkJob, layout: Layout, maxChunkBytes: int, s: nat, t: nat)
    requires s == j.startByte < t == j.endByteInclusive + 1 <= |f|
    requires layout.maxBytesPerRecord >= 1 && layout.breakFields != []
    ensures MultiLineRun(f, j, layout, maxChunkBytes).Ok? <==> Valid(j, maxChunkBytes) && Readable(f, j, layout)
  {
    MultiLineRunIff(f, j, layout, maxChunkBytes, s, t);
  }

  lemma RunValue(f: seq<byte>, j: ChunkJob, layout: Layout, w: seq<byte>)
    requires 0 <= j.startByte <= j.endByteInclusive < |f| && w == f[j.startByte..j.endByteInclusive + 1]
    ensures RecordsOf(w, layout).Ok? ==>
        Owned(RecordsOf(w, layout).value, j.startByte, j.startByte, OwnedEnd(j)) == OwnedRecordsOf(f, j, layout)
  {
    if RecordsOf(w, layout).Ok? { RecordsAreSlots(w, layout); }
  }

  lemma RunIsOwned(f: seq<byte>, j: ChunkJob, layout: Layout, maxChunkBytes: int, w: seq<byte>)
    requires 0 <= j.startByte <= j.endByteInclusive < |f| && w == f[j.startByte..j.endByteInclusive + 1]
    requires layout.breakFields != []
    ensures MultiLineRun(f, j, layout, maxChunkBytes)
         == if !Valid(j, maxChunkBytes) then Err(InvalidJob)
            else if RecordsOf(w, layout).Err? then Err(ReadFailed)
            else Ok(Owned(RecordsOf(w, layout).value, j.startByte, j.startByte, OwnedEnd(j)))
  {
  }

  lemma RecordsAreSlots(w: seq<byte>, layout: Layout)
    requires RecordsOf(w, layout).Ok?
    ensures RecordsOf(w, layout).value == Present(RecordSlots(Split(w, 0), layout))
  {
    RecordsOfInput(w, layout);
    SplitIsLinesIn(w, 0);
  }

  ghost predicate Succeeds(f: seq<byte>, j: ChunkJob, layout: Layout, maxChunkBytes: int) {
    MultiLineRun(f, j, layout, maxChunkBytes).Ok?
  }

  /** If every padded range is within the worker's maximum and is readable, all runs
      succeed, and together they are the records of one pass over the file. */
  lemma MultiLinePlanReads(f: seq<byte>, layout: Layout, nominal: int, jobs: seq<ChunkJob>, maxChunkBytes: int)
    returns (runs: seq<seq<Line>>)
    requires IsMultiLinePlan(f, layout, nominal, jobs)
    requires forall c :: 0 <= c < |jobs| ==>
        Length(jobs[c]) <= WorkerMaximum(maxChunkBytes) && Readable(f, jobs[c], layout)
    ensures AllPublish(f, layout, nominal, jobs, maxChunkBytes, runs) && RecordsOf(f, layout) == Ok(Flatten(runs))
  {
    forall c | 0 <= c < |jobs| ensures Succeeds(f, jobs[c], layout, maxChunkBytes) {
      PlannedMultiLineRun(f, layout, nominal, jobs, c, maxChunkBytes);
    }
    runs := RunsOf(f, jobs, layout, maxChunkBytes);
    MultiLineChunksEqualWholeFile(f, layout, nominal, jobs, maxChunkBytes, runs);
  }

  ghost function RunOf(f: seq<byte>, j: ChunkJob, layout: Layout, maxChunkBytes: int): (run: seq<Line>)
    requires Succeeds(f, j, layout, maxChunkBytes)
    ensures Publishes(f, j, layout, maxChunkBytes, run)
  {
    MultiLineRun(f, j, layout, maxChunkBytes).value
  }

  ghost function RunsOf(f: seq<byte>, jobs: seq<ChunkJob>, layout: Layout, maxChunkBytes: int): (runs: seq<seq<Line>>)
    requires forall c :: 0 <= c < |jobs| ==> Succeeds(f, jobs[c], layout, maxChunkBytes)
    ensures |runs| == |jobs|
    ensures forall c :: 0 <= c < |jobs| ==> Publishes(f, jobs[c], layout, maxChunkBytes, runs[c])
  {
    seq(|jobs|, c requires 0 <= c < |jobs| => RunOf(f, jobs[c], layout, maxChunkBytes))
  }

  // ---- A plan whose boundary cuts a line ------------------------------------------------

  const WITH_X: Layout := Layout([LineMatchField(0, 1, [B])], [LineMatchField(0, 1, [X])], [], [], 3)

  // "B LF X LF B LF"
  predicate IsThreeLines(f: seq<byte>) {
    |f| == 6 && f[0] == f[4] == B && f[2] == X && f[1] == f[3] == f[5] == LF
  }

  // Three nominal bytes each: the first chunk stops in the second line and reads on.
  predicate AreThreeEach(jobs: seq<ChunkJob>) {
    && |jobs| == 2
    && jobs[0] == ChunkJob(MultiLine, 0, 6, 0, 3, 3, 1, 0)
    && jobs[1] == ChunkJob(MultiLine, 1, 6, 3, 5, 3, 0, 0)
  }

  lemma OneByteLine(f: seq<byte>, p: nat)
    requires IsThreeLines(f) && p < 6
    ensures LineAt(f, p).raw == if p % 2 == 0 then [f[p]] else []
    ensures IsLineStart(f, p) <==> p % 2 == 0
  {
    LineEndUnique(f, p, if p % 2 == 0 then p + 1 else p);
    assert p % 2 == 0 ==> f[p..p + 1] == [f[p]];
    assert p == 0 || p == 1 || p == 2 || p == 3 || p == 4 || p == 5;
  }

  lemma OneByteFits(f: seq<byte>, p: nat)
    requires IsThreeLines(f) && p < 6
    ensures Fits(LineAt(f, p).raw, 3)
  {
    OneByteLine(f, p);
    assert [B][Utf8Char([B])..] == [] && [X][Utf8Char([X])..] == [];
    assert ValidUtf8([B]) && ValidUtf8([X]);
  }

  lemma BothReadable(f: seq<byte>, jobs: seq<ChunkJob>)
    requires IsThreeLines(f) && AreThreeEach(jobs)
    ensures Readable(f, jobs[0], WITH_X) && Readable(f, jobs[1], WITH_X)
  {
    forall p | 0 <= p < 6 ensures Fits(LineAt(f, p).raw, 3) { OneByteFits(f, p); }
  }

  lemma SecondLineIsCut(f: seq<byte>, look: seq<byte>)
    requires IsThreeLines(f) && look == f[3..6]
    ensures IsFirstBreak(look, 1, WITH_X.breakFields)
  {
    LineEndUnique(look, 0, 0);
    EmptyNeverMatches(WITH_X.breakFields);
    LineEndUnique(look, 1, 2);
    assert look[1..2] == [B];
    OneByteField([B], 0, B);
    assert FieldMatches([B], WITH_X.breakFields[0]);
  }

  lemma ThreeEachIsPlan(f: seq<byte>, jobs: seq<ChunkJob>)
    requires IsThreeLines(f) && AreThreeEach(jobs)
    ensures IsMultiLinePlan(f, WITH_X, 3, jobs)
  {
    FirstIsPlanned(f, jobs[0]);
    SecondIsPlanned(f, jobs[1]);
    TwoChunks(f, WITH_X, 3, jobs);
    assert ValidFields(WITH_X.breakFields) && ValidFields(WITH_X.includeFields);
  }

  lemma TwoChunks(f: seq<byte>, layout: Layout, nominal: int, jobs: seq<ChunkJob>)
    requires |jobs| == 2 && jobs[0].startByte == 0 && Follows(jobs, 1)
    requires IsPlannedChunk(f, layout, nominal, 0, jobs[0]) && IsPlannedChunk(f, layout, nominal, 1, jobs[1])
    ensures IsPlanPrefix(f, layout, nominal, jobs)
  {
    forall c | 0 <= c < |jobs| ensures IsPlannedChunk(f, layout, nominal, c, jobs[c]) { assert c == 0 || c == 1; }
    forall c | 0 < c < |jobs| ensures Follows(jobs, c) { assert c == 1; }
  }

  lemma SecondIsPlanned(f: seq<byte>, j: ChunkJob)
    requires IsThreeLines(f) && j == ChunkJob(MultiLine, 1, 6, 3, 5, 3, 0, 0)
    ensures IsPlannedChunk(f, WITH_X, 3, 1, j)
  {
  }

  lemma FirstIsPlanned(f: seq<byte>, j: ChunkJob)
    requires IsThreeLines(f) && j == ChunkJob(MultiLine, 0, 6, 0, 3, 3, 1, 0)
    ensures IsPlannedChunk(f, WITH_X, 3, 0, j)
  {
    var own, end := OwnedEnd(j), LookEnd(6, OwnedEnd(j), 3);
    assert own == 2 && end == 6;
    SecondLineIsCut(f, f[own + 1..end]);
  }

  /** Both chunks of that plan succeed where the worker admits four bytes; where it
      admits only the three of the planner's check, the padded chunk is refused. */
  lemma PaddedChunk(f: seq<byte>, jobs: seq<ChunkJob>, maxChunkBytes: int)
    requires IsThreeLines(f) && AreThreeEach(jobs) && maxChunkBytes >= 3
    ensures IsMultiLinePlan(f, WITH_X, 3, jobs)
    ensures maxChunkBytes == 3 ==> MultiLineRun(f, jobs[0], WITH_X, maxChunkBytes) == Err(InvalidJob)
    ensures maxChunkBytes > 3 ==> exists runs :: AllPublish(f, WITH_X, 3, jobs, maxChunkBytes, runs)
  {
    ThreeEachIsPlan(f, jobs);
    PlannedMultiLineRun(f, WITH_X, 3, jobs, 0, maxChunkBytes);
    if maxChunkBytes > 3 {
      BothReadable(f, jobs);
      forall c | 0 <= c < 2
        ensures Length(jobs[c]) <= WorkerMaximum(maxChunkBytes) && Readable(f, jobs[c], WITH_X)
      {
        assert c == 0 || c == 1;
      }
      var runs := MultiLinePlanReads(f, WITH_X, 3, jobs, maxChunkBytes);
    }
  }

  /** They publish the two records of the file: the first with both of its lines. */
  lemma PaddedChunkPublishes(f: seq<byte>, jobs: seq<ChunkJob>, maxChunkBytes: int, runs: seq<seq<Line>>)
    requires IsThreeLines(f) && AllPublish(f, WITH_X, 3, jobs, maxChunkBytes, runs)
    ensures Flatten(runs) == [Line(0, [B, 0x1C, X]), Line(4, [B])]
  {
    MultiLineChunksEqualWholeFile(f, WITH_X, 3, jobs, maxChunkBytes, runs);
    var o := Read(f, 0, 3, false);
    ReadSucceedsIff(f, 0, 3, false);
    ThreeLines(f);
    ThreeGrouped(o.emitted);
  }

  lemma ThreeLines(f: seq<byte>)
    requires IsThreeLines(f)
    ensures Split(f, 0) == [Line(0, [B]), Line(2, [X]), Line(4, [B])]
  {
    OneByteLine(f, 0);
    OneByteLine(f, 2);
    OneByteLine(f, 4);
    assert Split(f, 4) == [Line(4, [B])] + Split(f, 6);
    assert Split(f, 2) == [Line(2, [X])] + Split(f, 4);
    assert Split(f, 0) == [Line(0, [B])] + Split(f, 2);
  }

  lemma ThreeGrouped(lines: seq<Line>)
    requires lines == [Line(0, [B]), Line(2, [X]), Line(4, [B])]
    ensures Group(lines, 0, [], WITH_X) == [Line(0, [B, 0x1C, X]), Line(4, [B])]
  {
    OneLine([B]);
    OneLine([X]);
    assert lines[1..] == [Line(2, [X]), Line(4, [B])];
    assert lines[1..][1..] == [Line(4, [B])] && lines[1..][1..][1..] == [];
    assert Group([], 4, [[B]], WITH_X) == [Line(4, [B])];
    assert [[B]] + [[X]] == [[B], [X]];
    JoinConcat([[B]], [[X]], DEFAULT_LINE_SEPARATOR);
    assert [B] + DEFAULT_LINE_SEPARATOR + [X] == [B, 0x1C, X];
    assert Group(lines[1..][1..], 0, [[B], [X]], WITH_X) == [Line(0, [B, 0x1C, X])] + [Line(4, [B])];
    assert Group(lines[1..], 0, [[B]], WITH_X) == Group(lines[1..][1..], 0, [[B], [X]], WITH_X);
  }

  lemma OneLine(line: seq<byte>)
    ensures Matches(line, WITH_X.breakFields) <==> |line| > 0 && line[0] == B
    ensures Matches(line, WITH_X.includeFields) <==> |line| > 0 && line[0] == X
  {
    OneByteField(line, 0, B);
    OneByteField(line, 0, X);
    assert Matches(line, WITH_X.breakFields) <==> FieldMatches(line, WITH_X.breakFields[0]);
    assert Matches(line, WITH_X.includeFields) <==> FieldMatches(line, WITH_X.includeFields[0]);
  }
}
