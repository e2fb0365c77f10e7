/** Reading a multi-line object chunk by chunk equals reading it whole. */
module MultiLineChunks {
  import opened Bytes
  import opened Sequences
  import opened LineIo
  import opened Windows
  import opened Jobs
  import opened MultiLine
  import opened MultiLinePlan

  /** One chunk run: no widening and no synthetic LF; records that start in the
      owned range are published at file offsets. */
  ghost function MultiLineRun(f: seq<byte>, j: ChunkJob, layout: Layout,
                              maxChunkBytes: int): Result<seq<Line>, RunError> {
    if !Valid(j, maxChunkBytes) || layout.breakFields == [] then Err(InvalidJob) else
    var window := OpenChunkRange(f, j.startByte, j.endByteInclusive);
    if window.Err? then Err(window.error) else
    var records := RecordsOf(window.value, layout);
    if records.Err? then Err(ReadFailed) else Ok(Owned(records.value, j.startByte, j.startByte, OwnedEnd(j)))
  }

  method ProcessMultiLine(f: seq<byte>, j: ChunkJob, layout: Layout, maxChunkBytes: int)
    returns (r: Result<seq<Line>, RunError>)
    ensures r == MultiLineRun(f, j, layout, maxChunkBytes)
  {
    if !Valid(j, maxChunkBytes) || layout.breakFields == [] { return Err(InvalidJob); }
    var window := OpenChunkRange(f, j.startByte, j.endByteInclusive);
    if window.Err? { return Err(window.error); }
    var records := ReadMultiLineLayout(window.value, layout);
    if records.Err? { return Err(ReadFailed); }
    var published := FilterOwned(records.value, j.startByte, j.startByte, OwnedEnd(j));
    return Ok(published);
  }

  // ---- Breaks as the look-ahead sees them -----------------------------------------

  // In data that shows f from a on, cut anywhere on the right.
  lemma LookLineStart(f: seq<byte>, a: nat, b: nat, q: nat)
    requires a <= b <= |f| && 0 < q < b - a
    ensures IsLineStart(f[a..b], q) <==> IsLineStart(f, a + q)
  {
    assert f[a..b][q] == f[a + q] && f[a..b][q - 1] == f[a + q - 1];
  }

  lemma LookLineAt(f: seq<byte>, a: nat, b: nat, q: nat)
    requires a <= b <= |f| && q < b - a
    ensures LineAt(f[a..b], q).raw <= LineAt(f, a + q).raw
    ensures LineEnd(f[a..b], q) < b - a || b == |f| || LineEnd(f, a + q) <= b
        ==> LineAt(f[a..b], q).raw == LineAt(f, a + q).raw
  {
    var look := f[a..b];
    var e, e' := LineEnd(look, q), LineEnd(f, a + q);
    forall k | a + q <= k < a + e ensures !IsTerminator(f[k]) { assert look[k - a] == f[k]; }
    assert a + e <= e';
    assert e < |look| ==> look[e] == f[a + e];
    SliceOfSlice(f, a, b, q, e);
    PrefixOfSlice(f, a + q, a + e, e');
  }

  lemma LookBreak(f: seq<byte>, a: nat, b: nat, q: nat, fields: seq<LineMatchField>)
    requires a <= b <= |f| && q < b - a && (q > 0 || IsLineStart(f, a))
    ensures IsBreak(f[a..b], q, fields) ==> IsBreak(f, a + q, fields)
    ensures IsBreak(f, a + q, fields) && (LineEnd(f[a..b], q) < b - a || b == |f|) ==> IsBreak(f[a..b], q, fields)
  {
    if q > 0 { LookLineStart(f, a, b, q); }
    LookLineAt(f, a, b, q);
    if IsBreak(f[a..b], q, fields) { MatchesExtended(LineAt(f[a..b], q).raw, LineAt(f, a + q).raw, fields); }
  }

  // A line start further on shows that the line at q is complete.
  lemma LineEndsBefore(data: seq<byte>, q: nat, at: nat)
    requires q < at < |data| && IsLineStart(data, at)
    ensures LineEnd(data, q) < at
  {
    assert IsTerminator(data[at - 1]);
  }

  // The look-ahead finds the object's own first break, once the cut itself is
  // known not to be a false one.
  lemma PaddingIsNextBreak(f: seq<byte>, layout: Layout, ownedEnd: nat, padding: nat)
    requires ownedEnd < |f| - 1 && layout.maxBytesPerRecord >= 1 && IsPadding(f, layout, ownedEnd, padding)
    requires padding > 0 || IsLineStart(f, ownedEnd + 1)
    ensures ownedEnd + 1 + padding <= |f|
    ensures NoBreakIn(f, ownedEnd + 1, ownedEnd + 1 + padding, layout.breakFields)
    ensures ownedEnd + 1 + padding == |f| || IsBreak(f, ownedEnd + 1 + padding, layout.breakFields)
  {
    var a, b, fields := ownedEnd + 1, LookEnd(|f|, ownedEnd, layout.maxBytesPerRecord), layout.breakFields;
    var look := f[a..b];
    forall p | a <= p < a + padding ensures !IsBreak(f, p, fields) {
      var q := p - a;
      if IsBreak(f, a + q, fields) {
        if padding < |look| { LineEndsBefore(look, q, padding); }
        LookBreak(f, a, b, q, fields);
        assert false;
      }
    }
    if padding < |look| { LookBreak(f, a, b, padding, fields); }
  }

  /** A cut whose line tail looks like a break makes the chunk in front of it stop
      inside a line, so that chunk fails: it cannot succeed and mis-split. */
  lemma FalseBreakFails(f: seq<byte>, layout: Layout, j: ChunkJob, maxChunkBytes: int)
    requires layout.maxBytesPerRecord >= 1 && 0 <= j.startByte <= OwnedEnd(j) < |f| - 1
    requires IsPadding(f, layout, OwnedEnd(j), j.trailingPaddingBytes)
    requires j.trailingPaddingBytes == 0 && !IsLineStart(f, OwnedEnd(j) + 1)
    ensures MultiLineRun(f, j, layout, maxChunkBytes).Err?
  {
    var s := OwnedEnd(j) + 1;
    var look := f[s..LookEnd(|f|, OwnedEnd(j), layout.maxBytesPerRecord)];
    assert Matches(LineAt(look, 0).raw, layout.breakFields);
    EmptyNeverMatches(layout.breakFields);
    assert look[0] == f[s] && !IsTerminator(f[s]);
    MultiLineRunIff(f, j, layout, maxChunkBytes, j.startByte, s);
  }

  // ---- One run -----------------------------------------------------------------------

  /** The records of the lines that start in [lo, hi), grouped from nothing. */
  ghost function RecordsIn(f: seq<byte>, lo: nat, hi: nat, layout: Layout): seq<Line>
    requires lo <= hi <= |f|
  {
    Group(LinesIn(f, lo, hi), 0, [], layout)
  }

  lemma SplitShifted(f: seq<byte>, s: nat, t: nat, w: seq<byte>)
    requires s < t <= |f| && w == f[s..t] && Terminated(w)
    ensures Shift(Split(w, 0), s) == [Line(s, LineAt(f, s).raw)] + LinesIn(f, s + 1, t)
  {
    WindowSplit(f, s, t, w);
    WindowLineEnd(f, s, t, w, s);
    WindowLinesIn(f, s, t, w, s + 1, t);
    assert s + 1 - s == 1;
    assert ([LineAt(w, 0)] + LinesIn(w, 1, t - s))[1..] == LinesIn(w, 1, t - s);
  }

  // The lines a run sees, at file offsets: maybe a line tail, then whole lines.
  lemma RunLines(f: seq<byte>, s: nat, t: nat, w: seq<byte>)
    requires s < t <= |f| && w == f[s..t] && Terminated(w)
    ensures Shift(Split(w, 0), s) == Tail(f, s) + LinesIn(f, s, t)
  {
    SplitShifted(f, s, t, w);
    LineStarting(f, s);
    LinesInConcat(f, s, s + 1, t);
  }

  // The rest of a line that s cuts, as if it were a line.
  function Tail(f: seq<byte>, s: nat): seq<Line>
    requires s < |f|
  {
    if IsLineStart(f, s) then [] else [Line(s, LineAt(f, s).raw)]
  }

  // What a run that succeeds tells: its window is terminated, everything in it
  // fits, and it publishes the records of what it saw.
  lemma RunFacts(f: seq<byte>, j: ChunkJob, layout: Layout, maxChunkBytes: int, records: seq<Line>)
    returns (s: nat, t: nat, w: seq<byte>)
    requires MultiLineRun(f, j, layout, maxChunkBytes) == Ok(records)
    ensures layout.maxBytesPerRecord >= 1
    ensures s == j.startByte && t == j.endByteInclusive + 1 && s < t <= |f| && w == f[s..t]
    ensures Terminated(w) && AllFit(Split(w, 0), layout.maxBytesPerRecord)
    ensures records == Owned(Group(Split(w, 0), 0, [], layout), s, s, OwnedEnd(j))
  {
    s, t := j.startByte, j.endByteInclusive + 1;
    w := f[s..t];
    ReadSucceedsIff(w, 0, layout.maxBytesPerRecord, false);
  }

  // The end of a planned chunk whose run succeeds is the next break line, or the
  // end of the object; no break line starts in its padding.
  lemma PaddingClean(f: seq<byte>, layout: Layout, nominal: int, c: nat, j: ChunkJob, own: nat, t: nat,
                     maxChunkBytes: int)
    requires IsPlannedChunk(f, layout, nominal, c, j) && MultiLineRun(f, j, layout, maxChunkBytes).Ok?
    requires own == OwnedEnd(j) && t == j.endByteInclusive + 1
    ensures own < t <= |f| && NoBreakIn(f, own + 1, t, layout.breakFields)
    ensures t < |f| ==> IsBreak(f, t, layout.breakFields)
  {
    if own < |f| - 1 {
      if j.trailingPaddingBytes == 0 && !IsLineStart(f, own + 1) {
        FalseBreakFails(f, layout, j, maxChunkBytes);
      }
      PaddingIsNextBreak(f, layout, own, j.trailingPaddingBytes);
      assert own + 1 + j.trailingPaddingBytes == t;
    }
  }

  // The tail a run starts with is no break line, because the chunk in front
  // looked at it and read on.
  lemma TailIsNoBreak(f: seq<byte>, layout: Layout, before: ChunkJob, s: nat, maxChunkBytes: int)
    requires layout.maxBytesPerRecord >= 1 && 0 <= before.startByte <= OwnedEnd(before) < |f| - 1
    requires IsPadding(f, layout, OwnedEnd(before), before.trailingPaddingBytes)
    requires MultiLineRun(f, before, layout, maxChunkBytes).Ok?
    requires s == OwnedEnd(before) + 1 && !IsLineStart(f, s) && LineEnd(f, s) <= s + layout.maxBytesPerRecord
    ensures !Matches(LineAt(f, s).raw, layout.breakFields)
  {
    var own, padding := OwnedEnd(before), before.trailingPaddingBytes;
    if padding == 0 { FalseBreakFails(f, layout, before, maxChunkBytes); }
    assert own + 1 == s && padding > 0;
    LookedAtTail(f, layout, own, s, padding);
  }

  lemma LookedAtTail(f: seq<byte>, layout: Layout, ownedEnd: nat, s: nat, padding: nat)
    requires ownedEnd < |f| - 1 && layout.maxBytesPerRecord >= 1 && IsPadding(f, layout, ownedEnd, padding)
    requires padding > 0
    requires s == ownedEnd + 1 && LineEnd(f, s) <= s + layout.maxBytesPerRecord
    ensures !Matches(LineAt(f, s).raw, layout.breakFields)
  {
    var end := LookEnd(|f|, ownedEnd, layout.maxBytesPerRecord);
    assert !IsBreak(f[s..end], 0, layout.breakFields);
    LookLineAt(f, s, end, 0);
  }

  lemma TailFits(f: seq<byte>, j: ChunkJob, layout: Layout, maxChunkBytes: int)
    requires MultiLineRun(f, j, layout, maxChunkBytes).Ok?
    ensures 0 <= j.startByte < |f| && LineEnd(f, j.startByte) <= j.startByte + layout.maxBytesPerRecord
  {
    var s, t, w := RunFacts(f, j, layout, maxChunkBytes, MultiLineRun(f, j, layout, maxChunkBytes).value);
    WindowSplit(f, s, t, w);
    WindowLineEnd(f, s, t, w, s);
    assert Fits(Split(w, 0)[0].raw, layout.maxBytesPerRecord);
  }

  /** One run publishes exactly the records of the lines in its window that start
      in the object itself, whatever its start cuts. */
  lemma OwnedRecords(f: seq<byte>, s: nat, ownedEnd: nat, t: nat, w: seq<byte>, layout: Layout)
    requires s <= ownedEnd < t <= |f| && w == f[s..t] && Terminated(w)
    requires NoBreakIn(f, ownedEnd + 1, t, layout.breakFields)
    requires IsLineStart(f, s) || !Matches(LineAt(f, s).raw, layout.breakFields)
    ensures Owned(Group(Split(w, 0), 0, [], layout), s, s, ownedEnd) == RecordsIn(f, s, t, layout)
  {
    RunLines(f, s, t, w);
    GroupedFromTail(f, s, t, layout);
    GroupShifted(Split(w, 0), 0, [], layout, s);
    BreaksAreOwned(f, s, ownedEnd, t, layout);
    OwnedShifted(Group(Split(w, 0), 0, [], layout), s, s, ownedEnd);
  }

  lemma GroupedFromTail(f: seq<byte>, s: nat, t: nat, layout: Layout)
    requires s < t <= |f|
    requires IsLineStart(f, s) || !Matches(LineAt(f, s).raw, layout.breakFields)
    ensures Group(Tail(f, s) + LinesIn(f, s, t), s + 0, [], layout) == RecordsIn(f, s, t, layout)
  {
    GroupHeaders(Tail(f, s), LinesIn(f, s, t), s, layout);
    GroupFromNone(LinesIn(f, s, t), s, 0, layout);
  }

  lemma BreaksAreOwned(f: seq<byte>, s: nat, ownedEnd: nat, t: nat, layout: Layout)
    requires s <= ownedEnd < t <= |f| && NoBreakIn(f, ownedEnd + 1, t, layout.breakFields)
    ensures forall k :: 0 <= k < |RecordsIn(f, s, t, layout)| ==> s <= RecordsIn(f, s, t, layout)[k].offset <= ownedEnd
  {
    var lines := LinesIn(f, s, t);
    LinesInAreLines(f, s, t);
    forall k | 0 <= k < |lines| && Matches(lines[k].raw, layout.breakFields) ensures s <= lines[k].offset <= ownedEnd {
      assert LineOf(f, lines[k], s, t);
      assert IsBreak(f, lines[k].offset, layout.breakFields);
    }
    GroupOffsets(lines, 0, [], layout, s, ownedEnd);
  }

  // ---- All chunks ----------------------------------------------------------------------

  ghost predicate Publishes(f: seq<byte>, j: ChunkJob, layout: Layout, maxChunkBytes: int, records: seq<Line>) {
    MultiLineRun(f, j, layout, maxChunkBytes) == Ok(records)
  }

  ghost predicate LinesFit(f: seq<byte>, lo: nat, hi: nat, maxLineBytes: nat)
    requires lo <= hi <= |f|
  {
    forall p :: lo <= p < hi && IsLineStart(f, p) ==> Fits(LineAt(f, p).raw, maxLineBytes)
  }

  /** What is known of chunk c: it covers [s, t), owns bytes up to own, and has
      published the records that lie there. */
  ghost predicate Done(f: seq<byte>, layout: Layout, s: nat, own: nat, t: nat, records: seq<Line>) {
    && s <= own < t <= |f| && layout.maxBytesPerRecord >= 1
    && records == RecordsIn(f, s, t, layout)
    && NoBreakIn(f, own + 1, t, layout.breakFields)
    && (t < |f| ==> IsBreak(f, t, layout.breakFields))
    && LinesFit(f, s, t, layout.maxBytesPerRecord)
    && Terminated(f[s..t])
  }

  /** When a run succeeds: its range stops behind a terminator, and the line tail
      or line it begins with, and every line that starts in it, fit. */
  lemma MultiLineRunIff(f: seq<byte>, j: ChunkJob, layout: Layout, maxChunkBytes: int, s: nat, t: nat)
    requires 0 <= j.startByte == s < t <= |f| && t == j.endByteInclusive + 1 && layout.maxBytesPerRecord >= 1
    ensures MultiLineRun(f, j, layout, maxChunkBytes).Ok? <==>
      && Valid(j, maxChunkBytes) && layout.breakFields != []
      && IsTerminator(f[t - 1]) && Fits(LineAt(f, s).raw, layout.maxBytesPerRecord)
      && LinesFit(f, s + 1, t, layout.maxBytesPerRecord)
  {
    var w, max := f[s..t], layout.maxBytesPerRecord;
    RunReads(f, j, layout, maxChunkBytes, w);
    assert w[|w| - 1] == f[t - 1];
    WindowReadIff(f, s, t, w, max, false);
    AllFitLinesIn(f, s + 1, t, max);
  }

  lemma RunReads(f: seq<byte>, j: ChunkJob, layout: Layout, maxChunkBytes: int, w: seq<byte>)
    requires 0 <= j.startByte <= j.endByteInclusive < |f| && w == f[j.startByte..j.endByteInclusive + 1]
    requires layout.maxBytesPerRecord >= 1
    ensures MultiLineRun(f, j, layout, maxChunkBytes).Ok? <==>
      Valid(j, maxChunkBytes) && layout.breakFields != [] && Read(w, 0, layout.maxBytesPerRecord, false).error.None?
  {
  }

  lemma RunLinesFit(f: seq<byte>, s: nat, t: nat, w: seq<byte>, maxLineBytes: nat)
    requires s < t <= |f| && w == f[s..t] && Terminated(w) && AllFit(Split(w, 0), maxLineBytes)
    ensures LinesFit(f, s, t, maxLineBytes)
  {
    RunLines(f, s, t, w);
    AllFitShift(Split(w, 0), s, maxLineBytes);
    var tail, lines := Tail(f, s), LinesIn(f, s, t);
    assert forall k :: 0 <= k < |lines| ==> lines[k] == (tail + lines)[|tail| + k];
    AllFitLinesIn(f, s, t, maxLineBytes);
  }

  lemma ChunkDone(f: seq<byte>, layout: Layout, j: ChunkJob, own: nat, end: nat, maxChunkBytes: int, records: seq<Line>)
    requires Publishes(f, j, layout, maxChunkBytes, records)
    requires own == OwnedEnd(j) && end == j.endByteInclusive + 1
    requires 0 <= j.startByte <= own < end <= |f| && NoBreakIn(f, own + 1, end, layout.breakFields)
    requires end < |f| ==> IsBreak(f, end, layout.breakFields)
    requires IsLineStart(f, j.startByte) || !Matches(LineAt(f, j.startByte).raw, layout.breakFields)
    ensures Done(f, layout, j.startByte, own, end, records)
  {
    var s, t, w := RunFacts(f, j, layout, maxChunkBytes, records);
    assert s == j.startByte && t == end;
    RunLinesFit(f, s, t, w, layout.maxBytesPerRecord);
    OwnedRecords(f, s, own, t, w, layout);
  }

  lemma PlannedChunkDone(f: seq<byte>, layout: Layout, nominal: int, jobs: seq<ChunkJob>, runs: seq<seq<Line>>, c: nat,
                         own: nat, t: nat, maxChunkBytes: int)
    requires IsPlanPrefix(f, layout, nominal, jobs) && c < |jobs| == |runs|
    requires Publishes(f, jobs[c], layout, maxChunkBytes, runs[c])
    requires c > 0 ==> Publishes(f, jobs[c - 1], layout, maxChunkBytes, runs[c - 1])
    requires own == OwnedEnd(jobs[c]) && t == jobs[c].endByteInclusive + 1
    ensures 0 <= jobs[c].startByte && Done(f, layout, jobs[c].startByte, own, t, runs[c])
  {
    var j := jobs[c];
    PaddingClean(f, layout, nominal, c, j, own, t, maxChunkBytes);
    if !IsLineStart(f, j.startByte) {
      assert Follows(jobs, c);
      TailFits(f, j, layout, maxChunkBytes);
      TailIsNoBreak(f, layout, jobs[c - 1], j.startByte, maxChunkBytes);
    }
    ChunkDone(f, layout, j, own, t, maxChunkBytes, runs[c]);
  }

  // Records up to t are those up to the break at u, then those of [s, t), when no
  // break line starts in [s, u).
  lemma RecordsStep(f: seq<byte>, s: nat, u: nat, t: nat, layout: Layout)
    requires s <= u <= t <= |f| && NoBreakIn(f, s, u, layout.breakFields)
    requires u < t ==> IsBreak(f, u, layout.breakFields)
    ensures RecordsIn(f, 0, t, layout) == RecordsIn(f, 0, u, layout) + RecordsIn(f, s, t, layout)
  {
    var before, headers, after := LinesIn(f, 0, u), LinesIn(f, s, u), LinesIn(f, u, t);
    LinesInConcat(f, 0, u, t);
    LinesInConcat(f, s, u, t);
    LinesInAreLines(f, s, u);
    forall k | 0 <= k < |headers| ensures !Matches(headers[k].raw, layout.breakFields) {
      assert LineOf(f, headers[k], s, u);
      assert !IsBreak(f, headers[k].offset, layout.breakFields);
    }
    if u < t { LinesInHead(f, u, t); } else { assert after == [] by { assert Slots(f)[u..t] == []; } }
    GroupAtBreak(before, after, 0, [], layout);
    GroupHeaders(headers, after, 0, layout);
  }

  lemma EndsIncrease(f: seq<byte>, layout: Layout, s: nat, u: nat, own: nat, t: nat)
    requires s <= u <= |f| && NoBreakIn(f, s, u, layout.breakFields)
    requires s <= own < t <= |f| && (t < |f| ==> IsBreak(f, t, layout.breakFields))
    ensures u <= t
  {
  }

  ghost predicate AllPublish(f: seq<byte>, layout: Layout, nominal: int, jobs: seq<ChunkJob>, maxChunkBytes: int,
                             runs: seq<seq<Line>>) {
    && IsMultiLinePlan(f, layout, nominal, jobs) && |runs| == |jobs|
    && forall c {:trigger Publishes(f, jobs[c], layout, maxChunkBytes, runs[c])} ::
         0 <= c < |jobs| ==> Publishes(f, jobs[c], layout, maxChunkBytes, runs[c])
  }

  function EndOf(j: ChunkJob): int { j.endByteInclusive + 1 }

  lemma ChunkOfAll(f: seq<byte>, layout: Layout, nominal: int, jobs: seq<ChunkJob>, maxChunkBytes: int,
                   runs: seq<seq<Line>>, c: nat)
    requires AllPublish(f, layout, nominal, jobs, maxChunkBytes, runs) && c < |jobs|
    ensures 0 <= jobs[c].startByte <= OwnedEnd(jobs[c]) < EndOf(jobs[c])
    ensures Done(f, layout, jobs[c].startByte, OwnedEnd(jobs[c]), EndOf(jobs[c]), runs[c])
  {
    assert Publishes(f, jobs[c], layout, maxChunkBytes, runs[c]);
    if c > 0 { assert Publishes(f, jobs[c - 1], layout, maxChunkBytes, runs[c - 1]); }
    PlannedChunkDone(f, layout, nominal, jobs, runs, c, OwnedEnd(jobs[c]), EndOf(jobs[c]), maxChunkBytes);
  }

  lemma {:induction false} FirstChunks(f: seq<byte>, layout: Layout, nominal: int, jobs: seq<ChunkJob>,
                                       maxChunkBytes: int, runs: seq<seq<Line>>, k: nat)
    requires AllPublish(f, layout, nominal, jobs, maxChunkBytes, runs) && k < |jobs|
    ensures 0 <= OwnedEnd(jobs[k]) < EndOf(jobs[k]) <= |f|
    ensures Flatten(runs[..k + 1]) == RecordsIn(f, 0, EndOf(jobs[k]), layout)
    ensures LinesFit(f, 0, OwnedEnd(jobs[k]) + 1, layout.maxBytesPerRecord)
  {
    var s, own, t := jobs[k].startByte, OwnedEnd(jobs[k]), EndOf(jobs[k]);
    ChunkOfAll(f, layout, nominal, jobs, maxChunkBytes, runs, k);
    FlattenAppend(runs[..k], runs[k]);
    assert runs[..k + 1] == runs[..k] + [runs[k]];
    if k == 0 {
      assert runs[..k] == [] && Flatten(runs[..k]) == [];
      assert [] + runs[k] == runs[k];
    } else {
      FirstChunks(f, layout, nominal, jobs, maxChunkBytes, runs, k - 1);
      ChunkOfAll(f, layout, nominal, jobs, maxChunkBytes, runs, k - 1);
      assert Follows(jobs, k);
      DoneStep(f, layout, OwnedEnd(jobs[k - 1]), EndOf(jobs[k - 1]), s, own, t, runs[k]);
    }
  }

  lemma DoneStep(f: seq<byte>, layout: Layout, own0: nat, u: nat, s: nat, own: nat, t: nat, records: seq<Line>)
    requires Done(f, layout, s, own, t, records) && s == own0 + 1 <= u <= |f|
    requires NoBreakIn(f, s, u, layout.breakFields) && (u < |f| ==> IsBreak(f, u, layout.breakFields))
    requires LinesFit(f, 0, own0 + 1, layout.maxBytesPerRecord)
    ensures RecordsIn(f, 0, t, layout) == RecordsIn(f, 0, u, layout) + records
    ensures LinesFit(f, 0, own + 1, layout.maxBytesPerRecord)
  {
    EndsIncrease(f, layout, s, u, own, t);
    RecordsStep(f, s, u, t, layout);
  }

  /** Chunked multi-line reading equals whole-file reading: if planning and all
      chunk runs succeed, the published lists, concatenated in chunk order, are
      exactly the records one pass over the whole file emits, and no break line
      starts inside any chunk's padding. Nothing is assumed about line tails: a
      tail that looks like a break fails a run (FalseBreakFails). */
  lemma MultiLineChunksEqualWholeFile(f: seq<byte>, layout: Layout, nominal: int, jobs: seq<ChunkJob>,
                                      maxChunkBytes: int, runs: seq<seq<Line>>)
    requires AllPublish(f, layout, nominal, jobs, maxChunkBytes, runs)
    ensures RecordsOf(f, layout) == Ok(Flatten(runs))
    ensures forall c :: 0 <= c < |jobs| ==>
      0 <= OwnedEnd(jobs[c]) < EndOf(jobs[c]) <= |f|
        && NoBreakIn(f, OwnedEnd(jobs[c]) + 1, EndOf(jobs[c]), layout.breakFields)
  {
    var last := |jobs| - 1;
    forall c | 0 <= c < |jobs|
      ensures 0 <= OwnedEnd(jobs[c]) < EndOf(jobs[c]) <= |f|
      ensures NoBreakIn(f, OwnedEnd(jobs[c]) + 1, EndOf(jobs[c]), layout.breakFields)
    {
      ChunkOfAll(f, layout, nominal, jobs, maxChunkBytes, runs, c);
    }
    FirstChunks(f, layout, nominal, jobs, maxChunkBytes, runs, last);
    ChunkOfAll(f, layout, nominal, jobs, maxChunkBytes, runs, last);
    assert runs[..last + 1] == runs;
    WholeFileRecords(f, layout, jobs[last].startByte);
  }

  lemma WholeFileRecords(f: seq<byte>, layout: Layout, s: nat)
    requires s < |f| && layout.maxBytesPerRecord >= 1
    requires LinesFit(f, 0, |f|, layout.maxBytesPerRecord) && Terminated(f[s..|f|])
    ensures RecordsOf(f, layout) == Ok(RecordsIn(f, 0, |f|, layout))
  {
    var max := layout.maxBytesPerRecord;
    assert f[s..|f|][|f| - s - 1] == f[|f| - 1];
    AllFitLinesIn(f, 0, |f|, max);
    SplitIsLinesIn(f, 0);
    ReadSucceedsIff(f, 0, max, false);
    var lines := Read(f, 0, max, false).emitted;
    assert lines == LinesIn(f, 0, |f|);
  }

  // ---- A tail that looks like a break ----------------------------------------------------------

  const B: byte := 66
  const X: byte := 120

  const BEGINS_WITH_B: Layout := Layout([LineMatchField(0, 1, [B])], [], [], [], 3)

  // "B LF X B LF"
  predicate IsCutLine(f: seq<byte>) { |f| == 5 && f[0] == f[3] == B && f[1] == f[4] == LF && f[2] == X }

  /** Breaks are lines that begin with B, and the cut comes after X: the tail "B"
      looks like a break, so the chunk in front gets no padding and fails. */
  lemma FalseBreakExample(f: seq<byte>, layout: Layout, j: ChunkJob, maxChunkBytes: int)
    requires IsCutLine(f) && layout == BEGINS_WITH_B && j == ChunkJob(MultiLine, 0, 5, 0, 2, 3, 0, 0)
    ensures IsPadding(f, layout, 2, 0) && MultiLineRun(f, j, layout, maxChunkBytes).Err?
  {
    var own := OwnedEnd(j);
    TailLooksLikeBreak(f, layout, f[3..5], own);
    InsideLine(f, own + 1);
    FalseBreakFails(f, layout, j, maxChunkBytes);
  }

  /** One pass over the same file does read it. */
  lemma WholeFileIgnoresFalseBreak(f: seq<byte>)
    requires IsCutLine(f)
    ensures RecordsOf(f, BEGINS_WITH_B).Ok?
  {
    forall p | 0 <= p < 5 && IsLineStart(f, p) ensures Fits(LineAt(f, p).raw, 3) { ShortLineFits(f, p); }
    WholeFileRecords(f, BEGINS_WITH_B, 0);
  }

  lemma InsideLine(f: seq<byte>, p: nat)
    requires IsCutLine(f) && p == 3
    ensures !IsLineStart(f, p)
  {
    assert f[p - 1] == X;
  }

  lemma TailLooksLikeBreak(f: seq<byte>, layout: Layout, look: seq<byte>, own: int)
    requires IsCutLine(f) && layout == BEGINS_WITH_B && look == f[3..5] && own == 2
    ensures IsPadding(f, layout, own, 0)
  {
    LineEndUnique(look, 0, 1);
    assert look[0..1] == [B];
    assert FieldMatches([B], layout.breakFields[0]);
  }

  lemma ShortLineFits(f: seq<byte>, p: nat)
    requires IsCutLine(f) && p < 5 && IsLineStart(f, p)
    ensures Fits(LineAt(f, p).raw, 3)
  {
    assert [B][Utf8Char([B])..] == [] && [X, B][Utf8Char([X, B])..] == [B];
    assert ValidUtf8([B]);
    assert ValidUtf8([X, B]);
    if p == 0 {
      LineEndUnique(f, 0, 1);
      assert f[0..1] == [B];
    } else {
      assert p == 2;
      LineEndUnique(f, 2, 4);
      assert f[2..4] == [X, B];
    }
  }
}
