/** Reading a text object chunk by chunk equals reading it whole. */
module TextChunks {
  import opened Bytes
  import opened Sequences
  import opened LineIo
  import opened Windows
  import opened Jobs
  import opened Arithmetic
  import opened TextPlan

  predicate HasTerminator(data: seq<byte>) {
    exists k :: 0 <= k < |data| && IsTerminator(data[k])
  }

  ghost predicate TextChunk(f: seq<byte>, j: ChunkJob) {
    && InFile(j) && j.fileSize == |f| && j.dataType.Text?
    && 1 <= j.maxRecordLengthBytes <= MAX_INT64
  }

  /** The window [start, end) a chunk run gets to read, or why it gets none. */
  ghost function OpenWindow(f: seq<byte>, j: ChunkJob, maxChunkBytes: int): (r: Result<(nat, nat), RunError>)
    requires TextChunk(f, j)
    ensures r.Ok? ==> var (a, b) := r.value;
      a <= j.startByte && (a == 0 || a < j.startByte) && j.endByteInclusive < b <= |f|
  {
    TextReadRangeIff(j);
    if !Valid(j, maxChunkBytes) then Err(InvalidJob) else
    var range := ChunkReadRange(j);
    if range.Err? then Err(range.error) else
    var (start, end) := range.value;
    if OpenChunkRange(f, start, end).Err? then Err(InvalidRange) else Ok((start, end + 1))
  }

  /** Before anything is published, each side that is not an end of the object
      must show a terminator within the overlap. */
  predicate BoundariesFound(j: ChunkJob, readStart: int, data: seq<byte>)
    requires 0 <= readStart <= j.startByte <= j.endByteInclusive < readStart + |data|
  {
    && (j.startByte > 0 ==> HasTerminator(data[..j.startByte - readStart]))
    && (j.endByteInclusive < j.fileSize - 1 ==> HasTerminator(data[j.endByteInclusive + 1 - readStart..]))
  }

  // The parsing view: a window that reaches the end of the object without a
  // terminator gets one LF; no other window does.
  function View(fileSize: int, readEnd: int, data: seq<byte>): seq<byte> {
    if readEnd == fileSize - 1 && data != [] && !IsTerminator(data[|data| - 1]) then data + [LF] else data
  }

  // Reading f[a..b] for a chunk: boundary checks, then the reader, then the
  // ownership filter.
  ghost function ReadChunk(f: seq<byte>, j: ChunkJob, a: nat, b: nat): Result<seq<Line>, RunError>
    requires TextChunk(f, j) && a <= j.startByte <= j.endByteInclusive < b <= |f|
  {
    if !BoundariesFound(j, a, f[a..b]) then Err(NoBoundary) else
    var o := Read(View(|f|, b - 1, f[a..b]), 0, j.maxRecordLengthBytes, a > 0);
    if o.error.Some? then Err(ReadFailed)
    else Ok(Owned(o.emitted, a, j.startByte, j.endByteInclusive - j.trailingPaddingBytes))
  }

  /** One chunk run: the lines it publishes, at file offsets, or its error. */
  ghost function TextRun(f: seq<byte>, j: ChunkJob, maxChunkBytes: int): Result<seq<Line>, RunError>
    requires TextChunk(f, j)
  {
    var window := OpenWindow(f, j, maxChunkBytes);
    if window.Err? then Err(window.error) else ReadChunk(f, j, window.value.0, window.value.1)
  }

  // ---- The run as the worker performs it --------------------------------------

  method SearchTerminator(data: seq<byte>) returns (found: bool)
    ensures found == HasTerminator(data)
  {
    for k := 0 to |data|
      invariant !HasTerminator(data[..k])
    {
      if IsTerminator(data[k]) { return true; }
      assert data[..k + 1] == data[..k] + [data[k]];
    }
    assert data[..|data|] == data;
    return false;
  }

  method ValidateTextBoundaries(j: ChunkJob, readStart: int, data: seq<byte>) returns (ok: bool)
    requires 0 <= readStart <= j.startByte <= j.endByteInclusive < readStart + |data|
    ensures ok == BoundariesFound(j, readStart, data)
  {
    if j.startByte > 0 {
      var found := SearchTerminator(data[..j.startByte - readStart]);
      if !found { return false; }
    }
    if j.endByteInclusive < j.fileSize - 1 {
      var found := SearchTerminator(data[j.endByteInclusive + 1 - readStart..]);
      if !found { return false; }
    }
    return true;
  }

  method ReadTextChunk(f: seq<byte>, j: ChunkJob, a: nat, data: seq<byte>, b: nat)
    returns (r: Result<seq<Line>, RunError>)
    requires TextChunk(f, j) && a <= j.startByte <= j.endByteInclusive < b <= |f| && data == f[a..b]
    ensures r == ReadChunk(f, j, a, b)
  {
    var found := ValidateTextBoundaries(j, a, data);
    if !found { return Err(NoBoundary); }
    var view := View(j.fileSize, b - 1, data);
    var lines, error := ReadLines(view, j.maxRecordLengthBytes, a > 0);
    if error.Some? { return Err(ReadFailed); }
    var published := FilterOwned(lines, a, j.startByte, j.endByteInclusive - j.trailingPaddingBytes);
    return Ok(published);
  }

  method ProcessText(f: seq<byte>, j: ChunkJob, maxChunkBytes: int) returns (r: Result<seq<Line>, RunError>)
    requires TextChunk(f, j)
    ensures r == TextRun(f, j, maxChunkBytes)
  {
    ghost var window := OpenWindow(f, j, maxChunkBytes);
    if !Valid(j, maxChunkBytes) { return Err(InvalidJob); }
    var range := ChunkReadRange(j);
    if range.Err? { return Err(range.error); }
    var (readStart, readEnd) := range.value;
    var data := OpenChunkRange(f, readStart, readEnd);
    if data.Err? { return Err(data.error); }
    assert window == Ok((readStart, readEnd + 1));
    r := ReadTextChunk(f, j, readStart, data.value, readEnd + 1);
  }

  // ---- When a run succeeds ------------------------------------------------------

  // First byte and end of the window a successful run reads.
  ghost function From(j: ChunkJob): nat { Max0(j.startByte - 9 * j.maxRecordLengthBytes) }
  ghost function To(j: ChunkJob): int { Min(j.endByteInclusive + 9 * j.maxRecordLengthBytes, j.fileSize - 1) + 1 }

  ghost predicate BoundaryConditions(f: seq<byte>, j: ChunkJob, a: nat, b: nat)
    requires TextChunk(f, j) && a <= j.startByte <= j.endByteInclusive < b <= |f|
  {
    && (j.startByte > 0 ==> HasTerminator(f[a..j.startByte]))
    && (j.endByteInclusive < |f| - 1 ==> HasTerminator(f[j.endByteInclusive + 1..b]))
  }

  // The window stops behind a terminator or at the end of the object, and the
  // fragment it begins with, and every line that starts in it, fit.
  ghost predicate WindowFits(f: seq<byte>, a: nat, b: nat, maxLineBytes: nat)
    requires a < b <= |f|
  {
    && (b == |f| || IsTerminator(f[b - 1]))
    && Fits(f[a..LineEnd(f, a)], maxLineBytes)
    && (forall p :: a < p < b && IsLineStart(f, p) ==> Fits(LineAt(f, p).raw, maxLineBytes))
  }

  /** What can be checked on the object's bytes before the call. A window that
      stops before the end of the object must stop exactly behind a terminator, and
      the record limit and the UTF-8 check also apply to the fragment that is about
      to be skipped. */
  ghost predicate ReadConditions(f: seq<byte>, j: ChunkJob, a: nat, b: nat)
    requires TextChunk(f, j) && a <= j.startByte <= j.endByteInclusive < b <= |f|
  {
    BoundaryConditions(f, j, a, b) && WindowFits(f, a, b, j.maxRecordLengthBytes)
  }

  ghost predicate RunConditions(f: seq<byte>, j: ChunkJob, maxChunkBytes: int)
    requires TextChunk(f, j)
  {
    && Valid(j, maxChunkBytes)
    && j.endByteInclusive + 9 * j.maxRecordLengthBytes <= MAX_INT64
    && ReadConditions(f, j, From(j), To(j))
  }

  lemma ViewIsWindow(f: seq<byte>, a: nat, b: nat)
    requires a < b <= |f|
    ensures IsWindow(f, a, b, View(|f|, b - 1, f[a..b]))
    ensures Terminated(View(|f|, b - 1, f[a..b])) <==> b == |f| || IsTerminator(f[b - 1])
  {
    assert f[a..b][b - a - 1] == f[b - 1];
  }

  lemma ViewReadIff(f: seq<byte>, a: nat, b: nat, w: seq<byte>, maxLineBytes: nat, skip: bool)
    requires a < b <= |f| && w == View(|f|, b - 1, f[a..b])
    ensures var o := Read(w, 0, maxLineBytes, skip);
      && (o.error.None? <==> WindowFits(f, a, b, maxLineBytes))
      && (o.error.None? ==>
           IsWindow(f, a, b, w) && Terminated(w) && o.emitted == LinesIn(w, if skip then 1 else 0, b - a))
  {
    ViewIsWindow(f, a, b);
    WindowReadIff(f, a, b, w, maxLineBytes, skip);
    AllFitLinesIn(f, a + 1, b, maxLineBytes);
  }

  lemma BoundariesInFile(f: seq<byte>, j: ChunkJob, a: nat, b: nat)
    requires TextChunk(f, j) && a <= j.startByte <= j.endByteInclusive < b <= |f|
    ensures BoundariesFound(j, a, f[a..b]) <==> BoundaryConditions(f, j, a, b)
  {
    var data := f[a..b];
    assert data[..j.startByte - a] == f[a..j.startByte];
    assert data[j.endByteInclusive + 1 - a..] == f[j.endByteInclusive + 1..b];
  }

  lemma OpenWindowIff(f: seq<byte>, j: ChunkJob, maxChunkBytes: int)
    requires TextChunk(f, j)
    ensures OpenWindow(f, j, maxChunkBytes).Ok?
       <==> Valid(j, maxChunkBytes) && j.endByteInclusive + 9 * j.maxRecordLengthBytes <= MAX_INT64
    ensures OpenWindow(f, j, maxChunkBytes).Ok? ==> OpenWindow(f, j, maxChunkBytes).value == (From(j), To(j))
  {
    TextReadRangeIff(j);
  }

  lemma ReadChunkOkIff(f: seq<byte>, j: ChunkJob, a: nat, b: nat)
    requires TextChunk(f, j) && a <= j.startByte <= j.endByteInclusive < b <= |f|
    ensures ReadChunk(f, j, a, b).Ok? <==> ReadConditions(f, j, a, b)
  {
    BoundariesInFile(f, j, a, b);
    ViewReadIff(f, a, b, View(|f|, b - 1, f[a..b]), j.maxRecordLengthBytes, a > 0);
  }

  lemma ReadChunkValue(f: seq<byte>, j: ChunkJob, a: nat, b: nat, end: nat, lines: seq<Line>)
    requires TextChunk(f, j) && j.trailingPaddingBytes == 0 && end == j.endByteInclusive + 1
    requires a <= j.startByte && (a == 0 || a < j.startByte) && end <= b <= |f|
    requires ReadChunk(f, j, a, b) == Ok(lines)
    ensures IsPart(f, lines, j.startByte, end)
  {
    var w, last := View(|f|, b - 1, f[a..b]), j.endByteInclusive - j.trailingPaddingBytes;
    assert last == end - 1;
    var all := Read(w, 0, j.maxRecordLengthBytes, a > 0).emitted;
    assert lines == Owned(all, a, j.startByte, last);
    ViewReadIff(f, a, b, w, j.maxRecordLengthBytes, a > 0);
    OwnedWindow(f, a, b, w, if a > 0 then 1 else 0, all, j.startByte, last, end);
  }

  /** A run succeeds exactly under these conditions. */
  lemma TextRunIff(f: seq<byte>, j: ChunkJob, maxChunkBytes: int)
    requires TextChunk(f, j)
    ensures TextRun(f, j, maxChunkBytes).Ok? <==> RunConditions(f, j, maxChunkBytes)
  {
    OpenWindowIff(f, j, maxChunkBytes);
    ReadChunkOkIff(f, j, From(j), To(j));
  }

  /** And what it comes to otherwise: each error exactly when. */
  lemma TextRunOutcome(f: seq<byte>, j: ChunkJob, maxChunkBytes: int)
    requires TextChunk(f, j)
    ensures var r, overlap := TextRun(f, j, maxChunkBytes), 9 * j.maxRecordLengthBytes;
      if Length(j) > WorkerMaximum(maxChunkBytes)
        || !(0 <= j.trailingPaddingBytes <= Min(j.maxRecordLengthBytes, Length(j))) then r == Err(InvalidJob)
      else if overlap > MAX_INT64 then r == Err(OverlapOverflow)
      else if j.endByteInclusive + overlap > MAX_INT64 then r == Err(InvalidRange)
      else if !BoundaryConditions(f, j, From(j), To(j)) then r == Err(NoBoundary)
      else if !WindowFits(f, From(j), To(j), j.maxRecordLengthBytes) then r == Err(ReadFailed)
      else r.Ok?
  {
    TextReadRangeIff(j);
    OpenWindowIff(f, j, maxChunkBytes);
    ReadChunkOkIff(f, j, From(j), To(j));
    BoundariesInFile(f, j, From(j), To(j));
  }

  /** A successful run publishes exactly the object's lines that start in its
      owned range, and they all fit. */
  lemma TextRunPublishes(f: seq<byte>, j: ChunkJob, maxChunkBytes: int, lines: seq<Line>, end: nat)
    requires TextChunk(f, j) && j.trailingPaddingBytes == 0 && end == j.endByteInclusive + 1
    requires TextRun(f, j, maxChunkBytes) == Ok(lines)
    ensures IsPart(f, lines, j.startByte, end)
    ensures AllFit(lines, j.maxRecordLengthBytes)
  {
    OpenWindowIff(f, j, maxChunkBytes);
    ReadChunkOkIff(f, j, From(j), To(j));
    ReadChunkValue(f, j, From(j), To(j), end, lines);
    ChunkLinesFit(f, j, maxChunkBytes, end);
  }

  lemma ChunkLinesFit(f: seq<byte>, j: ChunkJob, maxChunkBytes: int, end: nat)
    requires TextChunk(f, j) && RunConditions(f, j, maxChunkBytes) && end == j.endByteInclusive + 1
    ensures AllFit(LinesIn(f, j.startByte, end), j.maxRecordLengthBytes)
  {
    AllFitLinesIn(f, j.startByte, end, j.maxRecordLengthBytes);
    assert From(j) == 0 || From(j) < j.startByte;
  }

  lemma OwnedWindow(f: seq<byte>, a: nat, b: nat, w: seq<byte>, skipped: nat, lines: seq<Line>, start: nat, last: int,
                    end: nat)
    requires IsWindow(f, a, b, w) && Terminated(w)
    requires a + skipped <= start <= end <= b && end == last + 1 && (a == 0 || skipped > 0)
    requires lines == LinesIn(w, skipped, b - a)
    ensures Owned(lines, a, start, last) == LinesIn(f, start, end)
  {
    var lo, hi := start - a, end - a;
    OwnedLinesIn(w, skipped, lo, hi, b - a, a, start, last);
    WindowLinesIn(f, a, b, w, start, end);
  }

  // ---- All chunks ---------------------------------------------------------------

  ghost predicate Publishes(f: seq<byte>, j: ChunkJob, maxChunkBytes: int, lines: seq<Line>) {
    TextChunk(f, j) && TextRun(f, j, maxChunkBytes) == Ok(lines)
  }

  lemma RunsArePlan(f: seq<byte>, jobs: seq<ChunkJob>, runs: seq<seq<Line>>, cuts: seq<nat>, maxRecordLengthBytes: int,
                    maxChunkBytes: int)
    requires |f| <= MAX_INT64 && 1 <= maxRecordLengthBytes <= MAX_INT64
    requires IsTextPlan(|f|, maxRecordLengthBytes, jobs) && |runs| == |jobs| && cuts == Cuts(|f|, |jobs|)
    requires forall c {:trigger Publishes(f, jobs[c], maxChunkBytes, runs[c])} :: 0 <= c < |jobs| ==>
        Publishes(f, jobs[c], maxChunkBytes, runs[c])
    ensures forall c :: 0 <= c < |runs| ==> IsPart(f, runs[c], cuts[c], cuts[c + 1])
    ensures forall c :: 0 <= c < |runs| ==> AllFit(runs[c], maxRecordLengthBytes)
  {
    forall c | 0 <= c < |runs|
      ensures IsPart(f, runs[c], cuts[c], cuts[c + 1]) && AllFit(runs[c], maxRecordLengthBytes)
    {
      PlannedRun(f, jobs, c, runs[c], maxRecordLengthBytes, maxChunkBytes);
    }
  }

  /** Chunked reading equals whole-file reading: for every non-empty object,
      record limit and text plan, if every chunk run succeeds, the published
      lists, concatenated in chunk order, are the whole-file split; and the
      whole-file reader, given one LF when the last line has no terminator,
      succeeds with the same lines. */
  lemma TextChunksEqualWholeFile(f: seq<byte>, jobs: seq<ChunkJob>, runs: seq<seq<Line>>,
                                 maxRecordLengthBytes: int, maxChunkBytes: int)
    requires |f| <= MAX_INT64 && 1 <= maxRecordLengthBytes <= MAX_INT64
    requires IsTextPlan(|f|, maxRecordLengthBytes, jobs) && |runs| == |jobs|
    requires forall c {:trigger Publishes(f, jobs[c], maxChunkBytes, runs[c])} :: 0 <= c < |jobs| ==>
        Publishes(f, jobs[c], maxChunkBytes, runs[c])
    ensures Flatten(runs) == Split(f, 0)
    ensures Read(View(|f|, |f| - 1, f), 0, maxRecordLengthBytes, false) == Outcome(Flatten(runs), None)
  {
    var n, cuts := |jobs|, Cuts(|f|, |jobs|);
    RunsArePlan(f, jobs, runs, cuts, maxRecordLengthBytes, maxChunkBytes);
    CutEnds(|f|, n);
    FlattenTiles(f, runs, cuts);
    AllFitFlatten(runs, maxRecordLengthBytes);
    SplitIsLinesIn(f, 0);
    WholeFileReads(f, maxRecordLengthBytes);
  }

  function Cuts(size: nat, n: nat): seq<nat>
    requires n >= 1
  {
    seq(n + 1, c requires 0 <= c <= n => Cut(size, n, c))
  }

  lemma PlannedRun(f: seq<byte>, jobs: seq<ChunkJob>, c: nat, lines: seq<Line>, maxRecordLengthBytes: int,
                   maxChunkBytes: int)
    requires |f| <= MAX_INT64 && 1 <= maxRecordLengthBytes <= MAX_INT64
    requires IsTextPlan(|f|, maxRecordLengthBytes, jobs) && c < |jobs|
    requires Publishes(f, jobs[c], maxChunkBytes, lines)
    ensures IsPart(f, lines, Cut(|f|, |jobs|, c), Cut(|f|, |jobs|, c + 1))
    ensures AllFit(lines, maxRecordLengthBytes)
  {
    var j, start, end := jobs[c], Cut(|f|, |jobs|, c), Cut(|f|, |jobs|, c + 1);
    assert j.startByte == start && j.endByteInclusive + 1 == end;
    TextRunPublishes(f, j, maxChunkBytes, lines, end);
  }

  lemma WholeFileReads(f: seq<byte>, maxLineBytes: nat)
    requires f != [] && AllFit(Split(f, 0), maxLineBytes)
    ensures Read(View(|f|, |f| - 1, f), 0, maxLineBytes, false) == Outcome(Split(f, 0), None)
  {
    SplitIsLinesIn(f, 0);
    AllFitLinesIn(f, 0, |f|, maxLineBytes);
    assert f[0..|f|] == f && IsLineStart(f, 0);
    assert f[0..LineEnd(f, 0)] == LineAt(f, 0).raw;
    var w := View(|f|, |f| - 1, f);
    ViewReadIff(f, 0, |f|, w, maxLineBytes, false);
    WindowLinesIn(f, 0, |f|, w, 0, |f|);
    ShiftNone(LinesIn(w, 0, |f|));
  }

  // ---- A whole-file read that succeeds where a chunk run does not -------------------

  const A: byte := 97

  /** a LF a LF ...: one-byte lines. */
  function Alternating(n: nat): seq<byte> {
    seq(n, k => if k % 2 == 0 then A else LF)
  }

  lemma AlternatingFits(n: nat, p: nat)
    requires p < n
    ensures Fits(LineAt(Alternating(n), p).raw, 1)
  {
    var f := Alternating(n);
    var e := LineEnd(f, p);
    assert IsTerminator(f[p]) || p + 1 == n || IsTerminator(f[p + 1]);
    var raw := LineAt(f, p).raw;
    assert raw == [] || raw == [A];
    assert [A][Utf8Char([A])..] == [];
  }

  /** The window of the first of two chunks stops in front of a terminator, so the
      chunk fails although the whole file reads without error. */
  lemma ChunkFailsWholeFileSucceeds(maxChunkBytes: int)
    ensures var n := 2 * MIN_TARGET; var f := Alternating(n); var j := TextJob(n, 2, 0, 1);
      && Read(View(n, n - 1, f), 0, 1, false).error.None?
      && TextChunk(f, j)
      && TextRun(f, j, maxChunkBytes)
           == Err(if WorkerMaximum(maxChunkBytes) < MIN_TARGET then InvalidJob else ReadFailed)
  {
    var n := 2 * MIN_TARGET;
    var f, j := Alternating(n), TextJob(n, 2, 0, 1);
    AllFitLinesIn(f, 0, n, 1);
    forall p | 0 <= p < n ensures Fits(LineAt(f, p).raw, 1) { AlternatingFits(n, p); }
    SplitIsLinesIn(f, 0);
    WholeFileReads(f, 1);
    TextRunOutcome(f, j, maxChunkBytes);
    assert To(j) == MIN_TARGET + 9 && f[To(j) - 1] == A;
    assert f[j.endByteInclusive + 1..To(j)][1] == LF;
  }
}
